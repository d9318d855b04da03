/** The in-memory response cache: byte-accounted, bounded, and read through shared handles. */
module ResponseCache {
  import opened Common

  const U64_MAX: nat := 0xFFFF_FFFF_FFFF_FFFF

  type Value = string
  type Bytes = seq<nat>

  /** Keys by their rank in the map's order. */
  type Key = nat

  datatype Entry = Entry(expires: nat, retain: nat, value: Value)
  datatype Cached = Cached(value: Value, stale: bool)

  /** A stored value behind a shared pointer; two handles are the same object exactly when their ids are. */
  datatype Handle = Handle(id: nat, bytes: Bytes)

  datatype Config = Config(ttl: nat, staleWindow: nat, maxEntries: nat, maxBytes: nat, maxEntryBytes: nat)

  ghost predicate ConfigOk(c: Config) {
    && 1 <= c.ttl <= 300_000 && c.staleWindow <= 300_000
    && 1 <= c.maxEntries <= 100_000 && 1024 <= c.maxBytes <= 0x4000_0000
    && 256 <= c.maxEntryBytes <= 0x80_0000 && c.maxEntryBytes <= c.maxBytes
  }

  /** The JSON codec; what it writes it reads back. */
  datatype Codec = Codec(encode: Entry -> Bytes, parse: Bytes -> Option<Entry>)

  ghost predicate RoundTrips(codec: Codec) {
    forall e :: codec.parse(codec.encode(e)) == Some(e)
  }

  function Saturating(n: nat): nat {
    if n <= U64_MAX then n else U64_MAX
  }

  function NewEntry(c: Config, value: Value, ttl: nat, now: nat): Entry {
    var expires := Saturating(now + ttl);
    Entry(expires, Saturating(expires + c.staleWindow), value)
  }

  function Decode(codec: Codec, bytes: Bytes, limit: Option<nat>, now: nat): Option<Cached> {
    if limit.Some? && |bytes| > limit.value then None
    else match codec.parse(bytes)
      case None => None
      case Some(e) =>
        var end := if e.retain > e.expires then e.retain else e.expires;
        if end > now then Some(Cached(e.value, e.expires <= now)) else None
  }

  /** A stored value is returned until its retention ends, and is stale from its expiry on. */
  lemma Freshness(codec: Codec, c: Config, value: Value, ttl: nat, put: nat, now: nat)
    requires RoundTrips(codec) && put <= now && put + ttl + c.staleWindow <= U64_MAX
    ensures
      var r := Decode(codec, codec.encode(NewEntry(c, value, ttl, put)), None, now);
      && (r.Some? <==> now < put + ttl + c.staleWindow)
      && (r.Some? ==> r.value.value == value && (r.value.stale <==> put + ttl <= now))
  {}

  // ---- Byte accounting ----

  type Entries = map<Key, Handle>

  /** The stored handles and the byte counter kept beside them. */
  datatype Room = Room(entries: Entries, bytes: nat)

  /** The lengths of everything stored. */
  ghost function Sum(entries: Entries): nat
    decreases |entries|
  {
    if entries == map[] then 0
    else
      var k := Least(entries.Keys);
      Smaller(entries, k);
      |entries[k].bytes| + Sum(entries - {k})
  }

  lemma Smaller(entries: Entries, k: Key)
    requires k in entries
    ensures |entries - {k}| == |entries| - 1
  {
    assert (entries - {k}).Keys == entries.Keys - {k};
  }

  lemma {:induction false} SumWithout(entries: Entries, k: Key)
    requires k in entries
    ensures Sum(entries) == |entries[k].bytes| + Sum(entries - {k})
    decreases |entries|
  {
    var m := Least(entries.Keys);
    if m != k {
      Smaller(entries, m);
      SumWithout(entries - {m}, k);
      SumWithoutLeast(entries, m, k);
    }
  }

  /** Removing another key first does not change which key comes first. */
  lemma SumWithoutLeast(entries: Entries, m: Key, k: Key)
    requires k in entries && m != k && IsLeast(entries.Keys, m)
    ensures Sum(entries - {k}) == |entries[m].bytes| + Sum(entries - {m} - {k})
  {
    var rest := entries - {k};
    assert rest.Keys == entries.Keys - {k};
    assert IsLeast(rest.Keys, m);
    assert Least(rest.Keys) == m;
    assert rest - {m} == entries - {m} - {k};
  }

  lemma SumWith(entries: Entries, k: Key, h: Handle)
    requires k !in entries
    ensures Sum(entries[k := h]) == Sum(entries) + |h.bytes| && |entries[k := h]| == |entries| + 1
  {
    SumWithout(entries[k := h], k);
    assert entries[k := h] - {k} == entries;
    assert entries[k := h].Keys == entries.Keys + {k};
  }

  /** The counter is the sum of the stored lengths. */
  ghost predicate Counted(r: Room) {
    r.bytes == Sum(r.entries)
  }

  /** Take a key out, by `size` bytes; the counter would stop at zero. */
  function Without(r: Room, key: Key, size: nat): Room {
    Room(r.entries - {key}, if r.bytes >= size then r.bytes - size else 0)
  }

  /** The counter never has to stop at zero. */
  lemma WithoutCounted(r: Room, key: Key)
    requires Counted(r) && key in r.entries
    ensures
      var size := |r.entries[key].bytes|;
      && size <= r.bytes && Counted(Without(r, key, size)) && |Without(r, key, size).entries| == |r.entries| - 1
  {
    hide Sum;
    SumWithout(r.entries, key);
    Smaller(r.entries, key);
  }

  // ---- Eviction ----

  predicate Full(r: Room, size: nat, c: Config) {
    |r.entries| >= c.maxEntries || r.bytes + size > c.maxBytes
  }

  /** What is left after evicting from the front until `size` more bytes fit. */
  function Evicted(r: Room, size: nat, c: Config): Room
    decreases |r.entries|
  {
    if Full(r, size, c) && r.entries != map[] then
      var k := Least(r.entries.Keys);
      Smaller(r.entries, k);
      Evicted(Without(r, k, |r.entries[k].bytes|), size, c)
    else r
  }

  /** Less is stored, unchanged, and what is gone comes before what is left. */
  ghost predicate Rear(left: Room, r: Room) {
    && left.entries.Keys <= r.entries.Keys
    && (forall k :: k in left.entries ==> left.entries[k] == r.entries[k])
    && (forall k, g :: k in left.entries && g in r.entries && g !in left.entries ==> g < k)
  }

  lemma RearStep(left: Room, rest: Room, r: Room, m: Key)
    requires IsLeast(r.entries.Keys, m) && rest.entries == r.entries - {m} && Rear(left, rest)
    ensures Rear(left, r) && m !in left.entries
  {}

  /** With the last one that went kept as well, there would be too much. */
  ghost predicate Needed(left: Room, last: Handle, size: nat, c: Config) {
    |left.entries| + 1 >= c.maxEntries || left.bytes + |last.bytes| + size > c.maxBytes
  }

  ghost predicate OnlyNeeded(left: Room, r: Room, size: nat, c: Config) {
    left.entries != r.entries ==> exists g :: g in r.entries && g !in left.entries && Needed(left, r.entries[g], size, c)
  }

  /** The front goes and no more of it than needed: what stays fits, comes after all that went, and the
      last one that went would not have fitted. */
  lemma {:induction false} EvictedFacts(r: Room, size: nat, c: Config)
    requires ConfigOk(c) && size <= c.maxEntryBytes && Counted(r)
    ensures
      var left := Evicted(r, size, c);
      Counted(left) && !Full(left, size, c) && Rear(left, r) && OnlyNeeded(left, r, size, c)
    decreases |r.entries|
  {
    hide Sum, Counted, Rear, OnlyNeeded;
    if Full(r, size, c) && r.entries != map[] {
      var k := Least(r.entries.Keys);
      var last := r.entries[k];
      var rest := Without(r, k, |last.bytes|);
      WithoutCounted(r, k);
      EvictedFacts(rest, size, c);
      RearStep(Evicted(rest, size, c), rest, r, k);
      SameCount(Evicted(rest, size, c), rest);
      NeededStep(Evicted(rest, size, c), rest, r, k, size, c);
    } else {
      EmptyFits(r, size, c);
      RearSelf(r, size, c);
    }
  }

  lemma SameCount(a: Room, b: Room)
    requires Counted(a) && Counted(b)
    ensures a.entries == b.entries ==> a.bytes == b.bytes
  {}

  lemma EmptyFits(r: Room, size: nat, c: Config)
    requires ConfigOk(c) && size <= c.maxEntryBytes && Counted(r) && (r.entries == map[] || !Full(r, size, c))
    ensures !Full(r, size, c)
  {}

  lemma RearSelf(r: Room, size: nat, c: Config)
    ensures Rear(r, r) && OnlyNeeded(r, r, size, c)
  {}

  lemma NeededStep(left: Room, rest: Room, r: Room, m: Key, size: nat, c: Config)
    requires m in r.entries && rest.entries == r.entries - {m} && rest.bytes + |r.entries[m].bytes| == r.bytes
    requires |rest.entries| + 1 == |r.entries| && Full(r, size, c) && m !in left.entries
    requires OnlyNeeded(left, rest, size, c) && (left.entries == rest.entries ==> left.bytes == rest.bytes)
    ensures OnlyNeeded(left, r, size, c)
  {
    if left.entries == rest.entries {
      assert Needed(left, r.entries[m], size, c);
    } else {
      var g :| g in rest.entries && g !in left.entries && Needed(left, rest.entries[g], size, c);
      assert r.entries[g] == rest.entries[g];
    }
  }

  // ---- The cache ----

  /** Every handle ever stored, and per key the entry last stored and its handle. */
  datatype Records = Records(issued: map<nat, Handle>, written: map<Key, Entry>, latest: map<Key, Handle>, next: nat)

  datatype Cache = Cache(room: Room, records: Records)

  const EMPTY := Cache(Room(map[], 0), Records(map[], map[], map[], 0))

  ghost predicate Known(r: Records, h: Handle) {
    h.id in r.issued && r.issued[h.id] == h
  }

  /** What is stored under a key is the last thing put there. */
  ghost predicate Current(codec: Codec, entries: Entries, r: Records) {
    && (forall k :: k in entries ==> k in r.latest && entries[k] == r.latest[k])
    && (forall k :: k in r.latest ==> k in r.written && r.latest[k].bytes == codec.encode(r.written[k]) && Known(r, r.latest[k]))
    && (forall id :: id in r.issued ==> id < r.next && r.issued[id].id == id)
  }

  ghost predicate CacheOk(c: Config, codec: Codec, s: Cache) {
    && Counted(s.room) && |s.room.entries| <= c.maxEntries && s.room.bytes <= c.maxBytes
    && Current(codec, s.room.entries, s.records)
  }

  /** Store a value unless it is too long, in which case what was there stays. */
  function Stored(c: Config, codec: Codec, s: Cache, key: Key, value: Value, ttl: Option<nat>, now: nat): Cache {
    var entry := NewEntry(c, value, if ttl.Some? then ttl.value else c.ttl, now);
    var data := codec.encode(entry);
    if |data| > c.maxEntryBytes then s
    else
      var others := if key in s.room.entries then Without(s.room, key, |s.room.entries[key].bytes|) else s.room;
      Inserted(Cache(Evicted(others, |data|, c), s.records), key, entry, data)
  }

  function Inserted(s: Cache, key: Key, entry: Entry, data: Bytes): Cache {
    var r, h := s.records, Handle(s.records.next, data);
    Cache(Room(s.room.entries[key := h], s.room.bytes + |data|),
          Records(r.issued[h.id := h], r.written[key := entry], r.latest[key := h], r.next + 1))
  }

  /** Drop a value past its retention unless something newer is there: the handles are compared. */
  function Expired(s: Cache, key: Key, h: Handle): Cache {
    if key in s.room.entries && s.room.entries[key].id == h.id then s.(room := Without(s.room, key, |h.bytes|)) else s
  }

  lemma CurrentFewer(codec: Codec, entries: Entries, left: Entries, r: Records)
    requires Current(codec, entries, r) && left.Keys <= entries.Keys && forall k :: k in left ==> left[k] == entries[k]
    ensures Current(codec, left, r)
  {}

  /** Handles taken before stay known. */
  ghost predicate Extends(r: Records, r': Records) {
    forall id :: id in r.issued ==> id in r'.issued && r'.issued[id] == r.issued[id]
  }

  lemma InsertedCurrent(codec: Codec, s: Cache, key: Key, entry: Entry)
    requires Current(codec, s.room.entries, s.records) && key !in s.room.entries
    ensures
      var s' := Inserted(s, key, entry, codec.encode(entry));
      Current(codec, s'.room.entries, s'.records) && Extends(s.records, s'.records) && s.records.next !in s.records.issued
  {}

  lemma InsertedOk(c: Config, codec: Codec, s: Cache, key: Key, entry: Entry)
    requires CacheOk(c, codec, s) && key !in s.room.entries && !Full(s.room, |codec.encode(entry)|, c)
    ensures
      var s' := Inserted(s, key, entry, codec.encode(entry));
      CacheOk(c, codec, s') && Extends(s.records, s'.records)
  {
    hide Sum, Current;
    InsertedCurrent(codec, s, key, entry);
    SumWith(s.room.entries, key, Handle(s.records.next, codec.encode(entry)));
  }

  /** Making room keeps what is left current. */
  lemma RoomOk(c: Config, codec: Codec, s: Cache, key: Key, size: nat)
    requires ConfigOk(c) && CacheOk(c, codec, s) && size <= c.maxEntryBytes
    ensures
      var others := if key in s.room.entries then Without(s.room, key, |s.room.entries[key].bytes|) else s.room;
      var left := Evicted(others, size, c);
      && Counted(others) && CacheOk(c, codec, s.(room := left)) && key !in left.entries && !Full(left, size, c)
  {
    hide Sum, Current, Evicted, OnlyNeeded, ConfigOk, Counted;
    if key in s.room.entries {
      WithoutCounted(s.room, key);
    }
    var others := if key in s.room.entries then Without(s.room, key, |s.room.entries[key].bytes|) else s.room;
    EvictedFacts(others, size, c);
    CurrentFewer(codec, s.room.entries, Evicted(others, size, c).entries, s.records);
  }

  lemma StoredOk(c: Config, codec: Codec, s: Cache, key: Key, value: Value, ttl: Option<nat>, now: nat)
    requires ConfigOk(c) && CacheOk(c, codec, s)
    ensures
      var s' := Stored(c, codec, s, key, value, ttl, now);
      CacheOk(c, codec, s') && Extends(s.records, s'.records)
  {
    hide CacheOk, Evicted, ConfigOk, Inserted, NewEntry, Full, Counted;
    var entry := NewEntry(c, value, if ttl.Some? then ttl.value else c.ttl, now);
    var data := codec.encode(entry);
    if |data| <= c.maxEntryBytes {
      RoomOk(c, codec, s, key, |data|);
      var others := if key in s.room.entries then Without(s.room, key, |s.room.entries[key].bytes|) else s.room;
      InsertedOk(c, codec, Cache(Evicted(others, |data|, c), s.records), key, entry);
    }
  }

  lemma ExpiredOk(c: Config, codec: Codec, s: Cache, key: Key, h: Handle)
    requires CacheOk(c, codec, s) && Known(s.records, h)
    ensures CacheOk(c, codec, Expired(s, key, h))
    ensures Expired(s, key, h).room.entries ==
      if key in s.room.entries && s.room.entries[key] == h then s.room.entries - {key} else s.room.entries
  {
    hide Sum, Counted;
    if key in s.room.entries && s.room.entries[key].id == h.id {
      assert s.room.entries[key] == h;
      WithoutCounted(s.room, key);
      CurrentFewer(codec, s.room.entries, s.room.entries - {key}, s.records);
    }
  }

  lemma CurrentRead(codec: Codec, s: Cache, key: Key)
    requires RoundTrips(codec) && Current(codec, s.room.entries, s.records) && key in s.room.entries
    ensures key in s.records.written && codec.parse(s.room.entries[key].bytes) == Some(s.records.written[key])
    ensures Known(s.records, s.room.entries[key])
  {}

  // ---- Runs: stores, and lookups that begin and finish with anything in between ----

  datatype Lookup = Lookup(key: Key, handle: Handle)

  datatype World = World(cache: Cache, taken: map<nat, Lookup>, answers: map<nat, Option<Cached>>)

  datatype Label =
    | Put(key: Key, value: Value, ttl: Option<nat>, now: nat)
    | Begin(id: nat, key: Key)
    | Finish(id: nat, now: nat)

  predicate Unused(w: World, id: nat) {
    id !in w.taken && id !in w.answers
  }

  function Step(c: Config, codec: Codec, w: World, l: Label): World {
    match l
    case Put(key, value, ttl, now) => w.(cache := Stored(c, codec, w.cache, key, value, ttl, now))
    case Begin(id, key) =>
      if !Unused(w, id) then w
      else if key in w.cache.room.entries then w.(taken := w.taken[id := Lookup(key, w.cache.room.entries[key])])
      else w.(answers := w.answers[id := None])
    case Finish(id, now) =>
      if id !in w.taken then w
      else
        var lookup := w.taken[id];
        var r := Decode(codec, lookup.handle.bytes, None, now);
        World(if r.None? then Expired(w.cache, lookup.key, lookup.handle) else w.cache, w.taken - {id}, w.answers[id := r])
  }

  function Run(c: Config, codec: Codec, labels: seq<Label>): World {
    if labels == [] then World(EMPTY, map[], map[])
    else Step(c, codec, Run(c, codec, labels[..|labels| - 1]), labels[|labels| - 1])
  }

  ghost predicate Inv(c: Config, codec: Codec, w: World) {
    CacheOk(c, codec, w.cache) && forall id :: id in w.taken ==> Known(w.cache.records, w.taken[id].handle)
  }

  lemma StepKeeps(c: Config, codec: Codec, w: World, l: Label)
    requires ConfigOk(c) && RoundTrips(codec) && Inv(c, codec, w)
    ensures Inv(c, codec, Step(c, codec, w, l))
  {
    hide ConfigOk, RoundTrips, Stored, Expired, Decode, Counted, Current;
    match l
    case Put(key, value, ttl, now) => StoredOk(c, codec, w.cache, key, value, ttl, now);
    case Begin(id, key) =>
      if key in w.cache.room.entries {
        CurrentRead(codec, w.cache, key);
      }
    case Finish(id, now) =>
      if id in w.taken {
        ExpiredOk(c, codec, w.cache, w.taken[id].key, w.taken[id].handle);
        ExpiredRecords(w.cache, w.taken[id].key, w.taken[id].handle);
      }
  }

  lemma ExpiredRecords(s: Cache, key: Key, h: Handle)
    ensures Expired(s, key, h).records == s.records
  {}

  /** In every run the counter is the sum of the stored lengths and both limits hold. */
  lemma {:induction false} AlwaysWithin(c: Config, codec: Codec, labels: seq<Label>)
    requires ConfigOk(c) && RoundTrips(codec)
    ensures
      var w := Run(c, codec, labels);
      && Inv(c, codec, w)
      && w.cache.room.bytes == Sum(w.cache.room.entries) <= c.maxBytes && |w.cache.room.entries| <= c.maxEntries
  {
    if labels != [] {
      hide Step, ConfigOk, RoundTrips, Current, Sum;
      AlwaysWithin(c, codec, labels[..|labels| - 1]);
      StepKeeps(c, codec, Run(c, codec, labels[..|labels| - 1]), labels[|labels| - 1]);
    }
  }

  lemma StepStays(c: Config, codec: Codec, w: World, l: Label, id: nat)
    requires !Unused(w, id) && !(l.Finish? && l.id == id)
    ensures
      var w' := Step(c, codec, w, l);
      && (id in w.taken <==> id in w'.taken) && (id in w.taken ==> w'.taken[id] == w.taken[id])
      && (id in w.answers <==> id in w'.answers) && (id in w.answers ==> w'.answers[id] == w.answers[id])
  {
    hide Stored, Expired, Decode;
  }

  /** A lookup that has begun stays as it is until it finishes. */
  lemma {:induction false} LookupStays(c: Config, codec: Codec, labels: seq<Label>, i: nat, j: nat, id: nat)
    requires i <= j <= |labels| && !Unused(Run(c, codec, labels[..i]), id)
    requires forall k :: i <= k < j ==> !(labels[k].Finish? && labels[k].id == id)
    ensures
      var a, b := Run(c, codec, labels[..i]), Run(c, codec, labels[..j]);
      && (id in a.taken <==> id in b.taken) && (id in a.taken ==> b.taken[id] == a.taken[id])
      && (id in a.answers <==> id in b.answers) && (id in a.answers ==> b.answers[id] == a.answers[id])
    decreases j
  {
    hide Step;
    if i < j {
      LookupStays(c, codec, labels, i, j - 1, id);
      assert labels[..j][..j - 1] == labels[..j - 1];
      StepStays(c, codec, Run(c, codec, labels[..j - 1]), labels[j - 1], id);
    }
  }

  /** What a lookup answers at `now` for what was stored when it began. */
  function Expected(s: Cache, key: Key, now: nat): Option<Cached> {
    if key !in s.room.entries || key !in s.records.written then None
    else
      var e := s.records.written[key];
      if now < e.retain || now < e.expires then Some(Cached(e.value, e.expires <= now)) else None
  }

  lemma DecodedIs(codec: Codec, s: Cache, key: Key, now: nat)
    requires RoundTrips(codec) && Current(codec, s.room.entries, s.records) && key in s.room.entries
    ensures Decode(codec, s.room.entries[key].bytes, None, now) == Expected(s, key, now)
  {
    hide Current, RoundTrips;
    CurrentRead(codec, s, key);
  }

  /** Whatever is put, looked up and expired in between: a lookup begun at step i and finished at step j
      answers nothing, or the value last put under its key when it began, stale exactly from that
      value's expiry to the end of its retention. */
  lemma LookupAnswers(c: Config, codec: Codec, labels: seq<Label>, i: nat, j: nat, id: nat, key: Key, now: nat)
    requires ConfigOk(c) && RoundTrips(codec) && i < j < |labels|
    requires labels[i] == Begin(id, key) && labels[j] == Finish(id, now) && Unused(Run(c, codec, labels[..i]), id)
    requires forall k :: i < k < j ==> !(labels[k].Finish? && labels[k].id == id)
    ensures
      var begun, finished := Run(c, codec, labels[..i]), Run(c, codec, labels[..j + 1]);
      id in finished.answers && finished.answers[id] == Expected(begun.cache, key, now)
  {
    hide Stored, Expired, Decode, ConfigOk, RoundTrips, Current, Counted;
    AlwaysWithin(c, codec, labels[..i]);
    var begun := Run(c, codec, labels[..i]);
    assert labels[..i + 1][..i] == labels[..i] && labels[..j + 1][..j] == labels[..j];
    assert Run(c, codec, labels[..i + 1]) == Step(c, codec, begun, Begin(id, key));
    LookupStays(c, codec, labels, i + 1, j, id);
    if key in begun.cache.room.entries {
      DecodedIs(codec, begun.cache, key, now);
    }
  }

  /** Finishing a lookup changes what is stored only when it found nothing to return, and then only by taking
      out the handle it took, if the key still has it. */
  lemma FinishKeeps(c: Config, codec: Codec, w: World, id: nat, now: nat)
    requires Inv(c, codec, w) && id in w.taken
    ensures
      var w', lookup := Step(c, codec, w, Finish(id, now)), w.taken[id];
      && id in w'.answers && id !in w'.taken
      && w'.cache.room.entries ==
           (if w'.answers[id].None? && lookup.key in w.cache.room.entries && w.cache.room.entries[lookup.key] == lookup.handle
            then w.cache.room.entries - {lookup.key} else w.cache.room.entries)
      && (w'.answers[id].Some? ==> w'.cache == w.cache)
  {
    hide CacheOk, Decode, Expired;
    ExpiredOk(c, codec, w.cache, w.taken[id].key, w.taken[id].handle);
  }

  // ---- From a put to a lookup ----

  /** How long a put value is fresh. */
  function Life(c: Config, ttl: Option<nat>): nat {
    match ttl case Some(own) => own case None => c.ttl
  }

  /** The stored form of a value put at `t`: fresh for its life, then retained for the stale window. */
  function Form(c: Config, value: Value, ttl: Option<nat>, t: nat): Entry {
    Entry(t + Life(c, ttl), t + Life(c, ttl) + c.staleWindow, value)
  }

  /** Instants stay within 64 bits. */
  predicate InTime(c: Config, ttl: Option<nat>, t: nat) {
    t + Life(c, ttl) + c.staleWindow <= 0xFFFF_FFFF_FFFF_FFFF
  }

  predicate Fits(c: Config, codec: Codec, value: Value, ttl: Option<nat>, t: nat) {
    |codec.encode(Form(c, value, ttl, t))| <= c.maxEntryBytes
  }

  /** A put stores exactly when the encoding is not too long: then the key holds the value in that form, and
      what else is stored was stored before; otherwise nothing changes. With room to spare nothing else
      goes. */
  lemma PutStoresExactly(c: Config, codec: Codec, s: Cache, key: Key, value: Value, ttl: Option<nat>, t: nat)
    requires ConfigOk(c) && RoundTrips(codec) && CacheOk(c, codec, s) && InTime(c, ttl, t)
    ensures
      var s' := Stored(c, codec, s, key, value, ttl, t);
      && (!Fits(c, codec, value, ttl, t) ==> s' == s)
      && (Fits(c, codec, value, ttl, t) ==>
            && key in s'.room.entries && codec.parse(s'.room.entries[key].bytes) == Some(Form(c, value, ttl, t))
            && key in s'.records.written && s'.records.written[key] == Form(c, value, ttl, t)
            && (forall k :: k in s'.room.entries && k != key ==> k in s.room.entries && s'.room.entries[k] == s.room.entries[k])
            && (forall k, g :: k in s'.room.entries && k != key && g in s.room.entries && g !in s'.room.entries ==> g < k)
            && (|s.room.entries| < c.maxEntries && s.room.bytes + |codec.encode(Form(c, value, ttl, t))| <= c.maxBytes ==>
                  s.room.entries.Keys <= s'.room.entries.Keys))
  {
    hide Sum, Counted, Current, Evicted, ConfigOk, OnlyNeeded;
    var data := codec.encode(Form(c, value, ttl, t));
    assert NewEntry(c, value, if ttl.Some? then ttl.value else c.ttl, t) == Form(c, value, ttl, t);
    if |data| <= c.maxEntryBytes {
      var others := if key in s.room.entries then Without(s.room, key, |s.room.entries[key].bytes|) else s.room;
      RoomOk(c, codec, s, key, |data|);
      EvictedFacts(others, |data|, c);
      if |s.room.entries| < c.maxEntries && s.room.bytes + |data| <= c.maxBytes {
        FewerFits(s.room, key, |data|, c);
        EvictDone(others, |data|, c);
      }
    }
  }

  lemma FewerFits(r: Room, key: Key, size: nat, c: Config)
    requires !Full(r, size, c)
    ensures key in r.entries ==> !Full(Without(r, key, |r.entries[key].bytes|), size, c)
  {
    if key in r.entries {
      Smaller(r.entries, key);
    }
  }

  /** Steps that do not put the key, or whose value is too long, leave its record alone. */
  lemma StepWrites(c: Config, codec: Codec, w: World, l: Label, key: Key)
    requires ConfigOk(c) && RoundTrips(codec) && Inv(c, codec, w) && key in w.cache.records.written
    requires l.Put? ==> InTime(c, l.ttl, l.now)
    requires l.Put? && l.key == key ==> !Fits(c, codec, l.value, l.ttl, l.now)
    ensures
      var w' := Step(c, codec, w, l);
      key in w'.cache.records.written && w'.cache.records.written[key] == w.cache.records.written[key]
  {
    hide ConfigOk, RoundTrips, Decode, CacheOk, Evicted, Fits;
    match l
    case Put(other, value, ttl, now) =>
      hide Stored;
      if other == key {
        PutStoresExactly(c, codec, w.cache, other, value, ttl, now);
      } else {
        OtherWritten(c, codec, w.cache, other, value, ttl, now, key);
      }
    case Begin(_, _) =>
    case Finish(_, _) =>
  }

  lemma OtherWritten(c: Config, codec: Codec, s: Cache, other: Key, value: Value, ttl: Option<nat>, now: nat, key: Key)
    requires other != key && key in s.records.written
    ensures
      var s' := Stored(c, codec, s, other, value, ttl, now);
      key in s'.records.written && s'.records.written[key] == s.records.written[key]
  {
    hide Evicted, NewEntry;
  }

  /** Between the last fitting put of a key and a later step its record is that put's. */
  lemma {:induction false} LastPutStays(c: Config, codec: Codec, labels: seq<Label>, p: nat, i: nat)
    requires ConfigOk(c) && RoundTrips(codec) && p < i <= |labels| && labels[p].Put?
    requires forall k :: 0 <= k < |labels| && labels[k].Put? ==> InTime(c, labels[k].ttl, labels[k].now)
    requires Fits(c, codec, labels[p].value, labels[p].ttl, labels[p].now)
    requires forall k :: p < k < i && labels[k].Put? && labels[k].key == labels[p].key ==>
      !Fits(c, codec, labels[k].value, labels[k].ttl, labels[k].now)
    ensures
      var l, written := labels[p], Run(c, codec, labels[..i]).cache.records.written;
      l.key in written && written[l.key] == Form(c, l.value, l.ttl, l.now)
    decreases i
  {
    hide ConfigOk, RoundTrips, Fits, Step, Inv;
    assert labels[..i][..i - 1] == labels[..i - 1];
    AlwaysWithin(c, codec, labels[..i - 1]);
    var w := Run(c, codec, labels[..i - 1]);
    if i == p + 1 {
      FirstWrite(c, codec, w, labels[p]);
    } else {
      LastPutStays(c, codec, labels, p, i - 1);
      StepWrites(c, codec, w, labels[i - 1], labels[p].key);
    }
  }

  lemma FirstWrite(c: Config, codec: Codec, w: World, l: Label)
    requires ConfigOk(c) && RoundTrips(codec) && Inv(c, codec, w) && l.Put? && InTime(c, l.ttl, l.now)
    requires Fits(c, codec, l.value, l.ttl, l.now)
    ensures
      var written := Step(c, codec, w, l).cache.records.written;
      l.key in written && written[l.key] == Form(c, l.value, l.ttl, l.now)
  {
    hide Stored, ConfigOk, RoundTrips, CacheOk, Fits, InTime;
    PutStoresExactly(c, codec, w.cache, l.key, l.value, l.ttl, l.now);
  }

  /** In every run: a lookup of a key that is still stored when it begins answers, until the stale window
      after the life of the last fitting put is over, the very value that was put, stale exactly from
      the end of its life on; and nothing after that. */
  lemma LookupReturnsPut(c: Config, codec: Codec, labels: seq<Label>, p: nat, i: nat, j: nat, id: nat, key: Key, value: Value,
                         ttl: Option<nat>, t: nat, now: nat)
    requires ConfigOk(c) && RoundTrips(codec) && p < i < j < |labels|
    requires forall k :: 0 <= k < |labels| && labels[k].Put? ==> InTime(c, labels[k].ttl, labels[k].now)
    requires labels[p] == Put(key, value, ttl, t) && Fits(c, codec, value, ttl, t)
    requires forall k :: p < k < i && labels[k].Put? && labels[k].key == key ==>
      !Fits(c, codec, labels[k].value, labels[k].ttl, labels[k].now)
    requires labels[i] == Begin(id, key) && labels[j] == Finish(id, now) && Unused(Run(c, codec, labels[..i]), id)
    requires forall k :: i < k < j ==> !(labels[k].Finish? && labels[k].id == id)
    requires key in Run(c, codec, labels[..i]).cache.room.entries
    ensures
      var answers, life := Run(c, codec, labels[..j + 1]).answers, (match ttl case Some(own) => own case None => c.ttl);
      id in answers && answers[id] == if now < t + life + c.staleWindow then Some(Cached(value, now >= t + life)) else None
  {
    hide ConfigOk, RoundTrips, Fits, Run, InTime;
    LastPutStays(c, codec, labels, p, i);
    LookupAnswers(c, codec, labels, i, j, id, key, now);
  }

  // ---- The shared object ----

  class Memory {
    const config: Config
    const codec: Codec
    var entries: Entries
    var bytes: nat
    var next: nat
    ghost var issued: map<nat, Handle>
    ghost var written: map<Key, Entry>
    ghost var latest: map<Key, Handle>

    ghost function View(): Cache
      reads this
    {
      Cache(Room(entries, bytes), Records(issued, written, latest, next))
    }

    ghost predicate Valid()
      reads this
    {
      ConfigOk(config) && RoundTrips(codec) && CacheOk(config, codec, View())
    }

    constructor (config: Config, codec: Codec)
      requires ConfigOk(config) && RoundTrips(codec)
      ensures Valid() && View() == EMPTY && this.config == config && this.codec == codec
    {
      this.config, this.codec := config, codec;
      entries, bytes, next, issued, written, latest := map[], 0, 0, map[], map[], map[];
    }

    /** Make room: evict from the front while a limit would be passed. */
    method Evict(size: nat)
      requires Counted(Room(entries, bytes))
      modifies this`entries, this`bytes
      ensures Counted(Room(entries, bytes)) && Room(entries, bytes) == Evicted(old(Room(entries, bytes)), size, config)
    {
      hide Counted, Evicted;
      while (|entries| >= config.maxEntries || bytes + size > config.maxBytes) && entries != map[]
        invariant Counted(Room(entries, bytes))
        invariant Evicted(Room(entries, bytes), size, config) == Evicted(old(Room(entries, bytes)), size, config)
        decreases |entries|
      {
        var k := Least(entries.Keys);
        WithoutCounted(Room(entries, bytes), k);
        EvictStep(Room(entries, bytes), size, config);
        bytes := bytes - |entries[k].bytes|;
        entries := entries - {k};
      }
      EvictDone(Room(entries, bytes), size, config);
    }

    method Put(key: Key, value: Value, ttl: Option<nat>, now: nat) returns (stored: bool)
      requires Valid()
      modifies this
      ensures Valid() && View() == Stored(config, codec, old(View()), key, value, ttl, now)
      ensures stored <==> View() != old(View())
      ensures InTime(config, ttl, now) ==> (stored <==> Fits(config, codec, value, ttl, now))
      ensures forall id :: id in old(issued) ==> id in issued && issued[id] == old(issued)[id]
    {
      hide ConfigOk, RoundTrips, NewEntry, CacheOk, Evicted, Counted, Inserted;
      StoredOk(config, codec, View(), key, value, ttl, now);
      FormIs(config, value, ttl, now);
      var entry := NewEntry(config, value, if ttl.Some? then ttl.value else config.ttl, now);
      var data := codec.encode(entry);
      if |data| > config.maxEntryBytes {
        return false;
      }
      CountedPart(config, codec, View());
      MakeRoom(key, |data|);
      ghost var left := View();
      Insert(key, entry, data);
      InsertedNext(left, key, entry, data);
      return true;
    }

    /** Take out what the key held, then evict until the new value fits. */
    method MakeRoom(key: Key, size: nat)
      requires Counted(Room(entries, bytes))
      modifies this`entries, this`bytes
      ensures
        var room := old(Room(entries, bytes));
        var others := if key in room.entries then Without(room, key, |room.entries[key].bytes|) else room;
        Room(entries, bytes) == Evicted(others, size, config)
    {
      hide Counted, Evicted;
      if key in entries {
        WithoutCounted(Room(entries, bytes), key);
        bytes := bytes - |entries[key].bytes|;
        entries := entries - {key};
      }
      Evict(size);
    }

    /** Store under a fresh handle. */
    method Insert(key: Key, entry: Entry, data: Bytes)
      modifies this
      ensures View() == Inserted(old(View()), key, entry, data)
    {
      var h := Handle(next, data);
      bytes := bytes + |data|;
      entries := entries[key := h];
      issued, written, latest := issued[next := h], written[key := entry], latest[key := h];
      next := next + 1;
    }

    /** The first half of a lookup, under the lock: take a handle. */
    method Take(key: Key) returns (h: Option<Handle>)
      requires Valid()
      ensures h.None? <==> key !in entries
      ensures h.Some? ==>
        && key in entries && h == Some(entries[key]) && Known(View().records, h.value)
        && key in written && codec.parse(h.value.bytes) == Some(written[key])
    {
      hide Current, ConfigOk, RoundTrips, Counted;
      h := if key in entries then Some(entries[key]) else None;
      if key in entries {
        CurrentRead(codec, View(), key);
      }
    }

    /** The second half, for a value past its retention: drop it unless something newer is there. */
    method Expire(key: Key, h: Handle)
      requires Valid() && Known(View().records, h)
      modifies this`entries, this`bytes
      ensures Valid() && View() == Expired(old(View()), key, h)
      ensures entries == if key in old(entries) && old(entries)[key] == h then old(entries) - {key} else old(entries)
    {
      hide ConfigOk, RoundTrips, CacheOk, Counted;
      ExpiredOk(config, codec, View(), key, h);
      if key in entries && entries[key].id == h.id {
        CountedPart(config, codec, View());
        WithoutCounted(View().room, key);
        SameHandle(config, codec, View(), key, h);
        bytes := bytes - |h.bytes|;
        entries := entries - {key};
      }
    }

    /** A lookup that nothing interrupts. */
    method GetWithState(key: Key, now: nat) returns (r: Option<Cached>)
      requires Valid()
      modifies this`entries, this`bytes
      ensures Valid() && r == Expected(old(View()), key, now)
      ensures entries == if r.None? && key in old(entries) then old(entries) - {key} else old(entries)
    {
      hide ConfigOk, RoundTrips, CacheOk, Decode;
      var h := Take(key);
      if h.None? {
        return None;
      }
      CurrentPart(config, codec, View());
      DecodedIs(codec, View(), key, now);
      r := Decode(codec, h.value.bytes, None, now);
      if r.None? {
        Expire(key, h.value);
      }
    }
  }

  lemma EvictStep(r: Room, size: nat, c: Config)
    requires Full(r, size, c) && r.entries != map[]
    ensures
      var k := Least(r.entries.Keys);
      Evicted(r, size, c) == Evicted(Without(r, k, |r.entries[k].bytes|), size, c)
  {}

  lemma EvictDone(r: Room, size: nat, c: Config)
    requires !Full(r, size, c) || r.entries == map[]
    ensures Evicted(r, size, c) == r
  {}

  lemma FormIs(c: Config, value: Value, ttl: Option<nat>, now: nat)
    ensures InTime(c, ttl, now) ==> NewEntry(c, value, if ttl.Some? then ttl.value else c.ttl, now) == Form(c, value, ttl, now)
  {}

  lemma InsertedNext(s: Cache, key: Key, entry: Entry, data: Bytes)
    ensures Inserted(s, key, entry, data).records.next == s.records.next + 1
  {}

  lemma CountedPart(c: Config, codec: Codec, s: Cache)
    requires CacheOk(c, codec, s)
    ensures Counted(s.room)
  {}

  lemma CurrentPart(c: Config, codec: Codec, s: Cache)
    requires CacheOk(c, codec, s)
    ensures Current(codec, s.room.entries, s.records)
  {}

  lemma SameHandle(c: Config, codec: Codec, s: Cache, key: Key, h: Handle)
    requires CacheOk(c, codec, s) && Known(s.records, h) && key in s.room.entries && s.room.entries[key].id == h.id
    ensures s.room.entries[key] == h
  {}
}
