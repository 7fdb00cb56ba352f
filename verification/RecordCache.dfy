/**
 The provider's bounded record cache: `RecordCache`, one `StoreCache` per handle, and the
 coordination that all handles of one store share.

 Part 1 is the meaning of every operation as a function on a heap-free `Snapshot`.
 Part 2 is the classes, whose methods are proved to compute those functions in place.
 Coherence with the database is proved about the functions in `CacheCoherence`.
 */
module RecordCaching {

  import opened Wrappers

  type Identity = string
  type Id = string

  /** A stored row. `jsonBytes` is the UTF-8 length of the JSON text of text and metadata,
      and `None` when the metadata cannot be cloned or written as JSON. */
  datatype Record = Record(text: string, metadata: string, jsonBytes: Option<nat>)

  /** A `StoreCache` object. `serial` stands for object identity. */
  datatype Handle = Handle(identity: Identity, serial: nat)

  /** A read lease object; whether it is valid is a mutable flag kept beside it. */
  datatype Lease = Lease(serial: nat, started: int)

  datatype Entry = Entry(store: Handle, id: Id, record: Record, expires: int, bytes: nat)

  datatype Config = Config(enabled: bool, maxEntries: nat, maxBytes: nat, ttlMs: nat)
  {
    predicate Valid() { maxEntries > 0 && maxBytes > 0 && ttlMs > 0 }
  }

  // ---------------------------------------------------------------------------------------
  // Part 1a: the LRU list. The order of a JavaScript `Map` is the order of this sequence.
  // ---------------------------------------------------------------------------------------

  predicate Selects(e: Entry, identity: Identity, id: Option<Id>) {
    e.store.identity == identity && (id.None? || e.id == id.value)
  }

  predicate SameKey(a: Entry, b: Entry) {
    Selects(a, b.store.identity, Some(b.id))
  }

  ghost predicate DistinctKeys(es: seq<Entry>) {
    forall i, j :: 0 <= i < j < |es| ==> !SameKey(es[i], es[j])
  }

  function SumBytes(es: seq<Entry>): nat {
    if es == [] then 0 else es[0].bytes + SumBytes(es[1..])
  }

  /** The entries left by `drop`. */
  function Without(es: seq<Entry>, identity: Identity, id: Option<Id>): seq<Entry> {
    if es == [] then []
    else if Selects(es[0], identity, id) then Without(es[1..], identity, id)
    else [es[0]] + Without(es[1..], identity, id)
  }

  /** The position of a key, or `|es|` when it is absent. */
  function IndexOf(es: seq<Entry>, identity: Identity, id: Id): (k: nat)
    ensures k <= |es|
    ensures k < |es| ==> Selects(es[k], identity, Some(id))
    ensures forall j :: 0 <= j < k ==> !Selects(es[j], identity, Some(id))
  {
    if es == [] then 0
    else if Selects(es[0], identity, Some(id)) then 0
    else 1 + IndexOf(es[1..], identity, id)
  }

  predicate Fits(es: seq<Entry>, config: Config) {
    |es| <= config.maxEntries && SumBytes(es) <= config.maxBytes
  }

  /** The entries left by the eviction loop, which removes from the front. */
  function Evicted(es: seq<Entry>, config: Config): seq<Entry> {
    if Fits(es, config) || es == [] then es else Evicted(es[1..], config)
  }

  function GotEntries(es: seq<Entry>, store: Handle, id: Id, now: int): seq<Entry> {
    var k := IndexOf(es, store.identity, id);
    if k == |es| || es[k].store != store then es
    else if now >= es[k].expires then Without(es, store.identity, Some(id))
    else Without(es, store.identity, Some(id)) + [es[k]]
  }

  function GotRecord(es: seq<Entry>, store: Handle, id: Id, now: int): Option<Record> {
    var k := IndexOf(es, store.identity, id);
    if k == |es| || es[k].store != store || now >= es[k].expires then None
    else Some(es[k].record)
  }

  predicate Admissible(config: Config, record: Record, started: int, now: int) {
    config.enabled && now - started < config.ttlMs &&
    record.jsonBytes.Some? && record.jsonBytes.value <= config.maxBytes
  }

  function NewEntry(config: Config, store: Handle, id: Id, record: Record, started: int): Entry
    requires record.jsonBytes.Some?
  {
    Entry(store, id, record, started + config.ttlMs, record.jsonBytes.value)
  }

  function PutEntries(es: seq<Entry>, config: Config, store: Handle, id: Id, record: Record,
                      started: int, now: int): seq<Entry>
  {
    if Admissible(config, record, started, now) then
      Evicted(Without(es, store.identity, Some(id)) + [NewEntry(config, store, id, record, started)], config)
    else es
  }

  // ----- facts about the LRU list -----

  lemma {:induction false} WithoutConcat(a: seq<Entry>, b: seq<Entry>, identity: Identity, id: Option<Id>)
    ensures Without(a + b, identity, id) == Without(a, identity, id) + Without(b, identity, id)
  {
    if a == [] {
      assert a + b == b;
    } else {
      assert (a + b)[0] == a[0] && (a + b)[1..] == a[1..] + b;
      WithoutConcat(a[1..], b, identity, id);
    }
  }

  lemma {:induction false} SumBytesConcat(a: seq<Entry>, b: seq<Entry>)
    ensures SumBytes(a + b) == SumBytes(a) + SumBytes(b)
  {
    if a == [] {
      assert a + b == b;
    } else {
      assert (a + b)[0] == a[0] && (a + b)[1..] == a[1..] + b;
      SumBytesConcat(a[1..], b);
    }
  }

  /** `drop` keeps exactly the entries it does not select, in their order. */
  lemma {:induction false} WithoutKeeps(es: seq<Entry>, identity: Identity, id: Option<Id>)
    ensures forall e :: e in Without(es, identity, id) <==> e in es && !Selects(e, identity, id)
    ensures |Without(es, identity, id)| <= |es|
    ensures DistinctKeys(es) ==> DistinctKeys(Without(es, identity, id))
  {
    if es != [] {
      WithoutKeeps(es[1..], identity, id);
      var rest := Without(es[1..], identity, id);
      var r := Without(es, identity, id);
      assert es == [es[0]] + es[1..];
      if DistinctKeys(es) && !Selects(es[0], identity, id) {
        forall i, j | 0 <= i < j < |r|
          ensures !SameKey(r[i], r[j])
        {
          assert r[j] == rest[j - 1] && r[j] in rest;
          assert r[j] in es[1..];
          if i > 0 {
            assert r[i] == rest[i - 1];
          }
        }
      }
    }
  }

  lemma {:induction false} WithoutNone(es: seq<Entry>, identity: Identity, id: Option<Id>)
    requires forall e :: e in es ==> !Selects(e, identity, id)
    ensures Without(es, identity, id) == es
  {
    if es != [] {
      WithoutNone(es[1..], identity, id);
      assert es == [es[0]] + es[1..];
    }
  }

  /** Dropping the key of the oldest entry removes that entry alone. */
  lemma WithoutOldest(es: seq<Entry>)
    requires es != [] && DistinctKeys(es)
    ensures Without(es, es[0].store.identity, Some(es[0].id)) == es[1..]
  {
    var rest := es[1..];
    forall e | e in rest
      ensures !Selects(e, es[0].store.identity, Some(es[0].id))
    {
      var k :| 0 <= k < |rest| && rest[k] == e;
      assert !SameKey(es[0], es[k + 1]);
    }
    WithoutNone(rest, es[0].store.identity, Some(es[0].id));
  }

  lemma AppendDistinct(es: seq<Entry>, e: Entry)
    requires DistinctKeys(es)
    requires forall x :: x in es ==> !SameKey(x, e)
    ensures DistinctKeys(es + [e])
  {
  }

  /** The number of entries the eviction loop removes. */
  function Victims(es: seq<Entry>, config: Config): (k: nat)
    ensures k <= |es|
  {
    if Fits(es, config) || es == [] then 0 else 1 + Victims(es[1..], config)
  }

  /** The eviction loop removes the shortest prefix after which both bounds hold. */
  lemma {:induction false} EvictionIsMinimal(es: seq<Entry>, config: Config)
    ensures Evicted(es, config) == es[Victims(es, config)..]
    ensures Fits(Evicted(es, config), config)
    ensures forall k :: 0 <= k < Victims(es, config) ==> !Fits(es[k..], config)
  {
    if !Fits(es, config) && es != [] {
      EvictionIsMinimal(es[1..], config);
      var n := Victims(es, config);
      assert es[1..][n - 1..] == es[n..];
      forall k | 0 <= k < n
        ensures !Fits(es[k..], config)
      {
        if k > 0 {
          assert es[1..][k - 1..] == es[k..];
        } else {
          assert es[0..] == es;
        }
      }
    } else {
      assert es[0..] == es;
    }
  }

  lemma SuffixOfDistinct(es: seq<Entry>, k: nat)
    requires k <= |es| && DistinctKeys(es)
    ensures DistinctKeys(es[k..])
  {
  }

  /** After an admission both bounds hold, keys stay distinct, the admitted entry is the newest
      and survives, and everything else that is left was there before. */
  lemma PutKeepsBounds(es: seq<Entry>, config: Config, store: Handle, id: Id, record: Record,
                       started: int, now: int)
    requires config.Valid() && DistinctKeys(es)
    requires Admissible(config, record, started, now)
    ensures var r := PutEntries(es, config, store, id, record, started, now);
      && Fits(r, config) && |r| <= config.maxEntries && SumBytes(r) <= config.maxBytes && DistinctKeys(r) && r != []
      && r[|r| - 1] == NewEntry(config, store, id, record, started)
      && forall e :: e in r[..|r| - 1] ==> e in es && !Selects(e, store.identity, Some(id))
  {
    var kept := Without(es, store.identity, Some(id));
    var e := NewEntry(config, store, id, record, started);
    WithoutKeeps(es, store.identity, Some(id));
    AppendDistinct(kept, e);
    var all := kept + [e];
    EvictionIsMinimal(all, config);
    var k := Victims(all, config);
    SuffixOfDistinct(all, k);
    assert all[|all| - 1..] == [e];
    assert SumBytes([e]) == e.bytes + SumBytes([e][1..]) == e.bytes;
    var r := all[k..];
    forall x | x in r[..|r| - 1]
      ensures x in es && !Selects(x, store.identity, Some(id))
    {
      var j :| 0 <= j < |r| - 1 && r[j] == x;
      assert x == kept[k + j];
    }
  }

  lemma GotKeepsDistinct(es: seq<Entry>, store: Handle, id: Id, now: int)
    requires DistinctKeys(es)
    ensures DistinctKeys(GotEntries(es, store, id, now))
    ensures forall e :: e in GotEntries(es, store, id, now) ==> e in es
    ensures GotRecord(es, store, id, now).Some? ==>
      forall e :: e in es ==> e in GotEntries(es, store, id, now)
  {
    WithoutKeeps(es, store.identity, Some(id));
    var k := IndexOf(es, store.identity, id);
    if k < |es| && es[k].store == store && now < es[k].expires {
      AppendDistinct(Without(es, store.identity, Some(id)), es[k]);
      forall e | e in es
        ensures e in GotEntries(es, store, id, now)
      {
        var j :| 0 <= j < |es| && es[j] == e;
        assert j < k ==> !SameKey(es[j], es[k]);
        assert k < j ==> !SameKey(es[k], es[j]);
      }
    }
  }

  /** Hits move an entry to the end, so the total size does not change; an expired one leaves. */
  lemma GotBytes(es: seq<Entry>, store: Handle, id: Id, now: int)
    requires DistinctKeys(es)
    requires GotRecord(es, store, id, now).Some?
    ensures SumBytes(GotEntries(es, store, id, now)) == SumBytes(es)
    ensures |GotEntries(es, store, id, now)| == |es|
  {
    hide Without, DistinctKeys;
    var k := IndexOf(es, store.identity, id);
    RemoveAt(es, k);
    SumBytesConcat(es[..k] + es[k + 1..], [es[k]]);
    SumBytesConcat(es[..k], es[k + 1..]);
    SumBytesConcat(es[..k], [es[k]] + es[k + 1..]);
    assert es == es[..k] + ([es[k]] + es[k + 1..]);
    assert SumBytes([es[k]]) == es[k].bytes + SumBytes([es[k]][1..]);
    SumBytesConcat([es[k]], es[k + 1..]);
  }

  /** With distinct keys, dropping a present key removes exactly its position. */
  lemma RemoveAt(es: seq<Entry>, k: nat)
    requires k < |es| && DistinctKeys(es)
    ensures Without(es, es[k].store.identity, Some(es[k].id)) == es[..k] + es[k + 1..]
  {
    hide Without, SumBytes;
    var identity, id := es[k].store.identity, Some(es[k].id);
    assert es == es[..k] + ([es[k]] + es[k + 1..]);
    WithoutConcat(es[..k], [es[k]] + es[k + 1..], identity, id);
    forall e | e in es[..k]
      ensures !Selects(e, identity, id)
    {
      var j :| 0 <= j < k && es[j] == e;
      assert !SameKey(es[j], es[k]);
    }
    WithoutNone(es[..k], identity, id);
    SuffixOfDistinct(es, k);
    assert es[k..] == [es[k]] + es[k + 1..];
    WithoutOldest(es[k..]);
  }

  lemma BytesWithout(es: seq<Entry>, k: nat)
    requires k < |es|
    ensures SumBytes(es[..k] + es[k + 1..]) == SumBytes(es) - es[k].bytes
  {
    SumBytesConcat(es[..k], es[k + 1..]);
    SumBytesConcat(es[..k], es[k..]);
    assert es == es[..k] + es[k..];
    assert es[k..][1..] == es[k + 1..];
  }

  /** Replacing a key: the rest without it, then the new entry. */
  lemma WithoutThenAppend(es: seq<Entry>, e: Entry)
    requires DistinctKeys(es)
    ensures var r := Without(es, e.store.identity, Some(e.id));
      DistinctKeys(r + [e]) && SumBytes(r + [e]) == SumBytes(r) + e.bytes
  {
    var r := Without(es, e.store.identity, Some(e.id));
    WithoutKeeps(es, e.store.identity, Some(e.id));
    AppendDistinct(r, e);
    SumBytesConcat(r, [e]);
    assert SumBytes([e]) == e.bytes + SumBytes([e][1..]);
  }

  /** One position of a list seen by `drop`: kept when it is not selected, removed when it is. */
  lemma WithoutAt(es: seq<Entry>, i: nat, identity: Identity, id: Option<Id>)
    requires i <= |es|
    ensures i < |es| && Selects(es[i], identity, id) ==>
      && Without(es[..i] + es[i + 1..], identity, id) == Without(es, identity, id)
      && (es[..i] + es[i + 1..])[..i] == es[..i]
    ensures i < |es| && !Selects(es[i], identity, id) ==>
      Without(es[..i + 1], identity, id) == Without(es[..i], identity, id) + [es[i]]
  {
    if i < |es| {
      WithoutConcat(es[..i], es[i + 1..], identity, id);
      WithoutConcat(es[..i], es[i..], identity, id);
      WithoutConcat(es[..i], [es[i]], identity, id);
      assert es == es[..i] + es[i..] && es[i..][1..] == es[i + 1..] && es[..i + 1] == es[..i] + [es[i]];
    }
  }

  // ---------------------------------------------------------------------------------------
  // Part 1b: leases and barriers, as one handle sees them.
  // ---------------------------------------------------------------------------------------

  /** The coordination shared by every handle of one store; `valid` holds the leases whose
      flag has not been cleared. */
  datatype Room = Room(readers: map<Id, set<Lease>>, writes: map<Id, nat>, clearing: nat, valid: set<Lease>)

  const EMPTY_ROOM := Room(map[], map[], 0, {})

  /** What one handle works on: the cache's entries, its store's room, its own flag. */
  datatype Face = Face(entries: seq<Entry>, room: Room, retired: bool)

  /** Reads and admissions of this id are refused through every handle of the store. */
  predicate Barred(room: Room, id: Id) {
    room.clearing > 0 || id in room.writes
  }

  predicate Open(f: Face, id: Id) {
    !f.retired && !Barred(f.room, id)
  }

  function Incremented<K>(m: map<K, nat>, k: K): map<K, nat> {
    m[k := (if k in m then m[k] else 0) + 1]
  }

  /** A counter that would reach zero is removed, and a missing one counts as one. */
  function Decremented<K>(m: map<K, nat>, k: K): map<K, nat> {
    var held := if k in m then m[k] else 1;
    if held > 1 then m[k := held - 1] else m - {k}
  }

  ghost predicate LeaseFor(room: Room, id: Option<Id>, lease: Lease) {
    exists k :: k in room.readers && lease in room.readers[k] && (id.None? || id.value == k)
  }

  /** `invalidate`: the entries go, and so do the flags of the reads in progress. */
  ghost function Invalidated(f: Face, identity: Identity, id: Option<Id>): Face {
    Face(Without(f.entries, identity, id),
         f.room.(valid := set l | l in f.room.valid && !LeaseFor(f.room, id, l)),
         f.retired)
  }

  ghost function ReadBegun(f: Face, id: Id, lease: Lease): Face {
    var active := if id in f.room.readers then f.room.readers[id] else {};
    f.(room := f.room.(
         readers := f.room.readers[id := active + {lease}],
         valid := if Open(f, id) then f.room.valid + {lease} else f.room.valid))
  }

  function Released(readers: map<Id, set<Lease>>, id: Id, lease: Lease): map<Id, set<Lease>> {
    if id in readers then
      var rest := readers[id] - {lease};
      if rest == {} then readers - {id} else readers[id := rest]
    else readers
  }

  predicate Admits(f: Face, id: Id, lease: Lease) {
    lease in f.room.valid && Open(f, id)
  }

  ghost function ReadEnded(f: Face, config: Config, h: Handle, id: Id, lease: Lease,
                           record: Option<Record>, now: int): Face
  {
    Face(if record.Some? && Admits(f, id, lease)
           then PutEntries(f.entries, config, h, id, record.value, lease.started, now)
           else f.entries,
         f.room.(readers := Released(f.room.readers, id, lease)),
         f.retired)
  }

  ghost function WithWrites(f: Face, writes: map<Id, nat>): Face {
    f.(room := f.room.(writes := writes))
  }

  ghost function OneWriteBegun(f: Face, identity: Identity, id: Id): Face {
    WithWrites(Invalidated(f, identity, Some(id)), Incremented(f.room.writes, id))
  }

  ghost function OneWriteSettled(f: Face, identity: Identity, id: Id): Face {
    WithWrites(Invalidated(f, identity, Some(id)), Decremented(f.room.writes, id))
  }

  /** `beginWrite(ids)`: one id after the other, a repeated id counted each time. */
  ghost function WriteBegun(f: Face, identity: Identity, ids: seq<Id>): Face
    decreases |ids|
  {
    if ids == [] then f else WriteBegun(OneWriteBegun(f, identity, ids[0]), identity, ids[1..])
  }

  ghost function WriteSettled(f: Face, identity: Identity, ids: seq<Id>): Face
    decreases |ids|
  {
    if ids == [] then f else WriteSettled(OneWriteSettled(f, identity, ids[0]), identity, ids[1..])
  }

  ghost function WithClearing(f: Face, clearing: nat): Face {
    f.(room := f.room.(clearing := clearing))
  }

  ghost function ClearBegun(f: Face, identity: Identity): Face {
    WithClearing(Invalidated(f, identity, None), f.room.clearing + 1)
  }

  ghost function ClearSettled(f: Face, identity: Identity): Face
    requires f.room.clearing > 0
  {
    WithClearing(Invalidated(f, identity, None), f.room.clearing - 1)
  }

  ghost function Retired(f: Face, identity: Identity): Face {
    Invalidated(f, identity, None).(retired := true)
  }

  /** `StoreCache.get`: what the caller receives, and the entries afterwards. */
  function Answer(f: Face, h: Handle, id: Id, now: int): Option<Record> {
    if Open(f, id) then GotRecord(f.entries, h, id, now) else None
  }

  ghost function Answered(f: Face, h: Handle, id: Id, now: int): Face {
    if Open(f, id) then f.(entries := GotEntries(f.entries, h, id, now)) else f
  }

  // ---------------------------------------------------------------------------------------
  // Part 1c: all handles of all stores together.
  // ---------------------------------------------------------------------------------------

  datatype Snapshot = Snapshot(
    entries: seq<Entry>,
    stores: map<Identity, Handle>,
    deletions: map<Identity, nat>,
    handles: set<Handle>,        // every handle ever made
    retired: set<Handle>,
    rooms: map<Identity, Room>,
    made: nat)                   // how many handles and leases were made

  const EMPTY_SNAPSHOT := Snapshot([], map[], map[], {}, {}, map[], 0)

  ghost function FaceOf(s: Snapshot, h: Handle): Face
    requires h.identity in s.rooms
  {
    Face(s.entries, s.rooms[h.identity], h in s.retired)
  }

  /** The whole after handle `h` turned its face into `f`. */
  ghost function Through(s: Snapshot, h: Handle, f: Face): Snapshot {
    s.(entries := f.entries,
       rooms := s.rooms[h.identity := f.room],
       retired := if f.retired then s.retired + {h} else s.retired)
  }

  /** `store()` and `current()` make a handle when there is none, or when the one there is
      retired and no deletion of the store is pending. */
  predicate NeedsHandle(known: bool, deleting: bool, retired: bool) {
    !known || (!deleting && retired)
  }

  ghost predicate Renews(s: Snapshot, identity: Identity) {
    NeedsHandle(identity in s.stores, identity in s.deletions,
                identity in s.stores && s.stores[identity] in s.retired)
  }

  ghost function Opened(s: Snapshot, identity: Identity): (r: Snapshot)
    ensures identity in r.stores
  {
    if Renews(s, identity) then
      var h := Handle(identity, s.made);
      s.(stores := s.stores[identity := h],
         handles := s.handles + {h},
         rooms := if identity in s.rooms then s.rooms else s.rooms[identity := EMPTY_ROOM],
         made := s.made + 1)
    else s
  }

  // ---------------------------------------------------------------------------------------
  // Part 2: the classes.
  // ---------------------------------------------------------------------------------------

  ghost function RegisteredIn(stores: map<Identity, StoreCache>): map<Identity, Handle> {
    map i | i in stores :: stores[i].handle
  }

  ghost function RetiredAmong(all: map<Handle, StoreCache>): set<Handle>
    reads all.Values
  {
    set h | h in all && all[h].retired
  }

  ghost function RoomsIn(rooms: map<Identity, StoreCoordination>): map<Identity, Room>
    reads rooms.Values
  {
    map i | i in rooms :: rooms[i].Contents()
  }

  class StoreCoordination {
    ghost const identity: Identity
    var readers: map<Id, set<Lease>>
    var writes: map<Id, nat>
    var clearing: nat
    var valid: set<Lease>

    constructor (ghost identity: Identity)
      ensures this.identity == identity && Contents() == EMPTY_ROOM
    {
      this.identity := identity;
      readers, writes, clearing, valid := map[], map[], 0, {};
    }

    ghost function Contents(): Room
      reads this
    {
      Room(readers, writes, clearing, valid)
    }
  }

  class RecordCache {
    const config: Config
    var entries: seq<Entry>
    var stores: map<Identity, StoreCache>
    var deletions: map<Identity, nat>
    var bytes: int
    var made: nat
    ghost var all: map<Handle, StoreCache>               // every handle ever made
    ghost var rooms: map<Identity, StoreCoordination>    // what the handles of a store share

    /** The byte counter is exact, keys are distinct and both bounds hold. */
    ghost predicate Valid()
      reads this
    {
      && config.Valid()
      && bytes == SumBytes(entries)
      && DistinctKeys(entries)
      && Fits(entries, config)
      && Linked()
    }

    ghost predicate Owns(store: StoreCache)
      reads this`all
    {
      store.owner == this && store.handle in all && all[store.handle] == store
    }

    /** Every store is registered under its own identity, all handles of a store share one
        coordination, and no two stores do. */
    ghost predicate Linked()
      reads this`stores, this`all, this`rooms, this`made
    {
      && stores.Keys == rooms.Keys
      && (forall i :: i in stores ==> stores[i].handle.identity == i && Owns(stores[i]))
      && (forall h :: h in all ==>
            && all[h].handle == h && all[h].owner == this && h.serial < made
            && h.identity in rooms && rooms[h.identity] == all[h].coordination)
      && (forall i :: i in rooms ==> rooms[i].identity == i)
    }

    /** The cache with all its handles and coordinations, as a value. */
    ghost function View(): Snapshot
      reads this, all.Values, rooms.Values
    {
      Snapshot(entries, RegisteredIn(stores), deletions, all.Keys, RetiredAmong(all), RoomsIn(rooms), made)
    }

    lemma RegisteredOwned(identity: Identity)
      requires Linked()
      ensures identity in stores <==> identity in rooms
      ensures identity in stores ==>
        && Owns(stores[identity]) && stores[identity].handle.identity == identity
        && stores[identity].coordination == rooms[identity] && rooms[identity].identity == identity
    {
    }

    twostate lemma OnlyDeletions()
      requires entries == old(entries) && stores == old(stores) && all == old(all) && rooms == old(rooms) &&
        made == old(made)
      requires RetiredAmong(all) == old(RetiredAmong(all)) && RoomsIn(rooms) == old(RoomsIn(rooms))
      ensures View() == old(View()).(deletions := deletions) && old(View()).deletions == old(deletions)
    {
      hide RetiredAmong, RoomsIn, RegisteredIn;
    }

    twostate lemma StaysLinked()
      requires old(Linked()) && stores == old(stores) && all == old(all) && rooms == old(rooms) && made >= old(made)
      ensures Linked()
    {
    }

    /** A new handle, that is not retired, leaves the retired ones as they were. */
    twostate lemma RetiredStay(new store: StoreCache)
      requires old(Linked()) && store.handle.serial == old(made) && !store.retired
      requires all == old(all)[store.handle := store]
      requires forall h :: h in old(all) ==> old(all)[h].retired == old(all[h].retired)
      ensures RetiredAmong(all) == old(RetiredAmong(all))
    {
    }

    /** The rooms after a store is registered: the ones there were, and an empty one for a new store. */
    twostate lemma RoomsStay(identity: Identity)
      requires rooms.Keys == old(rooms).Keys + {identity}
      requires forall i :: i in old(rooms) ==>
        rooms[i] == old(rooms[i]) && rooms[i].Contents() == old(rooms[i].Contents())
      requires identity !in old(rooms) ==> rooms[identity].Contents() == EMPTY_ROOM
      ensures RoomsIn(rooms) == var r := old(RoomsIn(rooms)); if identity in r then r else r[identity := EMPTY_ROOM]
    {
      hide StoreCoordination.Contents;
    }

    lemma RenewsIn(identity: Identity)
      requires Linked()
      ensures Renews(View(), identity) <==>
        NeedsHandle(identity in stores, identity in deletions, identity in stores && stores[identity].retired)
    {
      hide NeedsHandle, RoomsIn;
      if identity in stores {
        stores[identity].SeesFace();
      }
    }

    /** A new handle of a store joins the handles of that store. */
    twostate lemma LinkedWith(new store: StoreCache)
      requires old(Linked())
      requires store.owner == this && store.handle.serial == old(made) < made
      requires all == old(all)[store.handle := store]
      requires stores == old(stores)[store.handle.identity := store]
      requires var i := store.handle.identity;
        rooms == old(rooms)[i := store.coordination] && store.coordination.identity == i
        && (i in old(rooms) ==> old(rooms)[i] == store.coordination)
      ensures Linked() && Owns(store)
    {
      assert store.handle !in old(all);
    }

    /** A handle made and registered for a store, as a value. */
    twostate lemma OpenedView(identity: Identity, new store: StoreCache)
      requires old(Linked()) && old(Renews(View(), identity))
      requires store.handle == Handle(identity, old(made)) && made == old(made) + 1 && !store.retired
      requires all == old(all)[store.handle := store] && stores == old(stores)[identity := store]
      requires entries == old(entries) && deletions == old(deletions)
      requires rooms.Keys == old(rooms).Keys + {identity}
      requires identity !in old(rooms) ==> rooms[identity].Contents() == EMPTY_ROOM
      requires forall h :: h in old(all) ==> old(all)[h].retired == old(all[h].retired)
      requires forall i :: i in old(rooms) ==>
        rooms[i] == old(rooms[i]) && rooms[i].Contents() == old(rooms[i].Contents())
      ensures View() == Opened(old(View()), identity)
    {
      RetiredStay(store);
      RoomsStay(identity);
      assert RegisteredIn(stores) == old(RegisteredIn(stores))[identity := store.handle];
      hide Linked, RegisteredIn, RetiredAmong, RoomsIn, Renews, StoreCoordination.Contents;
      assert all.Keys == old(all).Keys + {store.handle};
    }

    twostate lemma SameView(identity: Identity)
      requires old(Linked()) && !old(Renews(View(), identity))
      requires all == old(all) && stores == old(stores) && rooms == old(rooms) && made == old(made)
      requires entries == old(entries) && deletions == old(deletions)
      requires RetiredAmong(all) == old(RetiredAmong(all)) && RoomsIn(rooms) == old(RoomsIn(rooms))
      ensures View() == Opened(old(View()), identity)
    {
      hide Linked, RegisteredIn, RetiredAmong, RoomsIn, Renews;
    }

    constructor (config: Config)
      requires config.Valid()
      ensures Valid() && this.config == config
      ensures View() == EMPTY_SNAPSHOT
    {
      this.config := config;
      entries, stores, deletions, bytes, made := [], map[], map[], 0, 0;
      all, rooms := map[], map[];
    }

    /** Removes by walking the map and deleting while it is walked. */
    method Drop(identity: Identity, id: Option<Id>)
      requires bytes == SumBytes(entries) && DistinctKeys(entries)
      modifies this`entries, this`bytes
      ensures entries == Without(old(entries), identity, id)
      ensures bytes == SumBytes(entries) && DistinctKeys(entries)
      ensures |entries| <= |old(entries)| && bytes <= old(bytes)
    {
      WithoutKeeps(entries, identity, id);
      WithoutAt(entries, 0, identity, id);
      var i := 0;
      while i < |entries|
        invariant i <= |entries| <= |old(entries)|
        invariant Without(entries, identity, id) == Without(old(entries), identity, id)
        invariant Without(entries[..i], identity, id) == entries[..i]
        invariant bytes == SumBytes(entries) <= old(bytes)
        decreases |entries| - i
      {
        var e := entries[i];
        WithoutAt(entries, i, identity, id);
        if Selects(e, identity, id) {
          BytesWithout(entries, i);
          entries := entries[..i] + entries[i + 1..];
          bytes := bytes - e.bytes;
        } else {
          i := i + 1;
        }
      }
      assert entries[..i] == entries;
    }

    method Get(store: StoreCache, id: Id, now: int) returns (record: Option<Record>)
      requires Valid()
      modifies this`entries, this`bytes
      ensures Valid()
      ensures record == GotRecord(old(entries), store.handle, id, now)
      ensures entries == GotEntries(old(entries), store.handle, id, now)
    {
      GotKeepsDistinct(entries, store.handle, id, now);
      var k := IndexOf(entries, store.handle.identity, id);
      if k == |entries| || entries[k].store != store.handle {
        return None;
      }
      if now >= entries[k].expires {
        Drop(store.handle.identity, Some(id));
        return None;
      }
      GotBytes(entries, store.handle, id, now);
      RemoveAt(entries, k);
      record := Some(entries[k].record);
      entries := entries[..k] + entries[k + 1..] + [entries[k]];
    }

    method Put(store: StoreCache, id: Id, record: Record, started: int, now: int)
      requires Valid()
      modifies this`entries, this`bytes
      ensures Valid()
      ensures entries == PutEntries(old(entries), config, store.handle, id, record, started, now)
      ensures var fits := record.jsonBytes.Some? && record.jsonBytes.value <= config.maxBytes;
        if config.enabled && fits && now - started < config.ttlMs then
          && entries != []
          && entries[|entries| - 1] == Entry(store.handle, id, record, started + config.ttlMs, record.jsonBytes.value)
        else
          entries == old(entries)
    {
      hide Without, DistinctKeys, SumBytes, Selects, Fits, Evicted;
      if !config.enabled || now - started >= config.ttlMs {
        return;
      }
      if record.jsonBytes.None? {
        return; // the copy threw: never admitted
      }
      var size := record.jsonBytes.value;
      if size > config.maxBytes {
        return;
      }
      PutKeepsBounds(entries, config, store.handle, id, record, started, now);
      WithoutThenAppend(entries, NewEntry(config, store.handle, id, record, started));
      Drop(store.handle.identity, Some(id));
      entries := entries + [Entry(store.handle, id, record, started + config.ttlMs, size)];
      bytes := bytes + size;
      Evict();
    }

    /** The loop of `put`: the oldest entry is dropped while there are too many or too large ones. */
    method Evict()
      requires bytes == SumBytes(entries) && DistinctKeys(entries)
      modifies this`entries, this`bytes
      ensures bytes == SumBytes(entries) && DistinctKeys(entries)
      ensures entries == Evicted(old(entries), config)
    {
      hide Without, DistinctKeys;
      while |entries| > config.maxEntries || bytes > config.maxBytes
        invariant bytes == SumBytes(entries) && DistinctKeys(entries)
        invariant Evicted(entries, config) == Evicted(old(entries), config)
        decreases |entries|
      {
        var oldest := entries[0];
        WithoutOldest(entries);
        Drop(oldest.store.identity, Some(oldest.id));
      }
    }

    /** Makes a handle over the given coordination and registers it under the store's identity. */
    method Register(identity: Identity, room: StoreCoordination) returns (store: StoreCache)
      requires Valid() && Renews(View(), identity) && room.identity == identity
      requires if identity in rooms then room == rooms[identity] else room.Contents() == EMPTY_ROOM
      modifies this`stores, this`made, this`all, this`rooms
      ensures Valid()
      ensures stores == old(stores)[identity := store]
      ensures store.handle.identity == identity && Owns(store)
      ensures View() == Opened(old(View()), identity)
      ensures fresh(store) && store.coordination == room
    {
      hide View, Opened, StoreCoordination.Contents, RetiredAmong, RoomsIn, RegisteredIn, Linked, Renews, Owns,
           SumBytes, DistinctKeys, Fits;
      store := new StoreCache(this, Handle(identity, made), room);
      stores, made := stores[identity := store], made + 1;
      all, rooms := all[store.handle := store], rooms[identity := room];
      LinkedWith(store);
      OpenedView(identity, store);
    }

    /** `store()`, with the `current()` of the handle it finds. */
    method Store(identity: Identity) returns (store: StoreCache)
      requires Valid()
      modifies this`stores, this`made, this`all, this`rooms
      ensures Valid()
      ensures stores == old(stores)[identity := store]
      ensures store.handle.identity == identity && Owns(store)
      ensures View() == Opened(old(View()), identity)
      ensures fresh(store) || (identity in old(stores) && store == old(stores)[identity])
      ensures fresh(store.coordination) ||
        (identity in old(stores) && store.coordination == old(stores)[identity].coordination)
    {
      RenewsIn(identity);
      RegisteredOwned(identity);
      hide View, Opened, StoreCoordination.Contents, RetiredAmong, RoomsIn, RegisteredIn, Linked, Renews, Owns,
           SumBytes, DistinctKeys, Fits;
      if identity !in stores {
        var room := new StoreCoordination(identity);
        store := Register(identity, room);
      } else {
        store := stores[identity];
        if identity !in deletions && store.retired {
          store := Register(identity, store.coordination); // current()
        } else {
          assert stores == stores[identity := store];
          SameView(identity);
        }
      }
    }

    method BeginDeleteStore(identity: Identity) returns (store: StoreCache)
      requires Valid()
      modifies this
      modifies if identity in stores then {stores[identity], stores[identity].coordination} else {}
      ensures Valid() && Owns(store)
      ensures stores == old(stores)[identity := store] && store.handle.identity == identity
      ensures var s := Opened(old(View()), identity);
        identity in s.rooms && View() ==
          Through(s, store.handle, Retired(FaceOf(s, store.handle), identity)).(
            deletions := Incremented(s.deletions, identity))
      ensures store.retired
    {
      hide Linked, View, Opened, RetiredAmong, RoomsIn, Invalidated, SumBytes, DistinctKeys, Fits,
           StoreCoordination.Contents;
      RegisteredOwned(identity);
      store := Store(identity);
      store.SeesFace();
      store.HasRoom();
      store.Retire();
      label retired:
      deletions := deletions[identity := (if identity in deletions then deletions[identity] else 0) + 1];
      OnlyDeletions@retired();
    }

    /** The closure `beginDeleteStore` returned, for the handle it captured. */
    method SettleDeleteStore(store: StoreCache)
      requires Valid() && Owns(store)
      modifies this`entries, this`bytes, this`deletions, store, store.coordination
      ensures Valid()
      ensures View() == (var s, i := old(View()), store.handle.identity;
                         Through(s, store.handle, Retired(old(store.Sees()), i)).(
                           deletions := Decremented(s.deletions, i)))
      ensures store.Sees() == Retired(old(store.Sees()), store.handle.identity)
      ensures deletions == Decremented(old(deletions), store.handle.identity)
    {
      hide Linked, RetiredAmong, RoomsIn, RegisteredIn, Invalidated, SumBytes, DistinctKeys;
      store.Retire();
      var identity := store.handle.identity;
      var pending := (if identity in deletions then deletions[identity] else 1) as int - 1;
      if pending > 0 {
        deletions := deletions[identity := pending];
      } else {
        deletions := deletions - {identity};
      }
    }

    method DeleteStore(identity: Identity)
      requires Valid()
      modifies this`entries, this`bytes
      modifies if identity in stores then {stores[identity], stores[identity].coordination} else {}
      ensures Valid()
      ensures identity in stores ==> stores[identity].Sees() == Retired(old(stores[identity].Sees()), identity)
      ensures identity !in stores ==> entries == old(entries)
      ensures View() == if identity in stores
                        then Through(old(View()), stores[identity].handle,
                                     Retired(old(stores[identity].Sees()), identity))
                        else old(View())
    {
      if identity in stores {
        stores[identity].Retire();
      }
    }
  }

  class StoreCache {
    const owner: RecordCache
    const handle: Handle
    const coordination: StoreCoordination
    var retired: bool

    constructor (owner: RecordCache, handle: Handle, coordination: StoreCoordination)
      ensures this.owner == owner && this.handle == handle && this.coordination == coordination
      ensures !retired
    {
      this.owner, this.handle, this.coordination := owner, handle, coordination;
      retired := false;
    }

    ghost function Sees(): Face
      reads this, owner, coordination
    {
      Face(owner.entries, coordination.Contents(), retired)
    }

    /** A handle's face in the view of the whole cache is what the handle sees. */
    lemma SeesFace()
      requires owner.Linked() && owner.Owns(this)
      ensures handle.identity in owner.rooms && owner.rooms[handle.identity] == coordination
      ensures handle in RetiredAmong(owner.all) <==> retired
      ensures FaceOf(owner.View(), handle) == Sees()
    {
      assert retired ==> handle in RetiredAmong(owner.all);
    }

    lemma HasRoom()
      requires owner.Linked() && owner.Owns(this)
      ensures handle.identity in owner.View().rooms
    {
    }

    /** No other store shares this handle's room. */
    lemma RoomIsMine(i: Identity)
      requires owner.Linked() && owner.Owns(this) && i in owner.rooms
      ensures owner.rooms[i] == coordination <==> i == handle.identity
    {
    }

    /** When only this handle's room changed, the rooms of the other stores did not. */
    twostate lemma OtherRooms()
      requires owner.Linked() && owner.Owns(this) && owner.rooms == old(owner.rooms)
      requires forall i :: i in owner.rooms && owner.rooms[i] != coordination ==>
                 owner.rooms[i].Contents() == old(owner.rooms[i].Contents())
      ensures forall i :: i in owner.rooms && i != handle.identity ==>
                owner.rooms[i].Contents() == old(owner.rooms[i].Contents())
    {
      forall i | i in owner.rooms && i != handle.identity
        ensures owner.rooms[i].Contents() == old(owner.rooms[i].Contents())
      {
        RoomIsMine(i);
        hide RecordCache.Linked, RecordCache.Owns, StoreCoordination.Contents;
      }
    }

    twostate lemma MyRoom()
      requires owner.Linked() && owner.Owns(this) && owner.rooms == old(owner.rooms)
      requires forall i :: i in owner.rooms && i != handle.identity ==>
                 owner.rooms[i].Contents() == old(owner.rooms[i].Contents())
      ensures RoomsIn(owner.rooms) == old(RoomsIn(owner.rooms))[handle.identity := coordination.Contents()]
    {
      SeesFace();
      hide RecordCache.Linked, RecordCache.Owns, RecordCache.View, FaceOf, Sees, StoreCoordination.Contents,
           RetiredAmong;
    }

    twostate lemma MyFlag()
      requires owner.Linked() && owner.Owns(this) && owner.all == old(owner.all) && retired
      requires forall h :: h in owner.all && owner.all[h] != this ==> owner.all[h].retired == old(owner.all[h].retired)
      ensures RetiredAmong(owner.all) == old(RetiredAmong(owner.all)) + {handle}
    {
    }

    /** When nothing changed but what this handle sees, the whole changed through this handle. */
    twostate lemma ThroughMe()
      requires owner.Linked() && owner.Owns(this)
      requires owner.all == old(owner.all) && owner.rooms == old(owner.rooms) && owner.stores == old(owner.stores)
      requires owner.deletions == old(owner.deletions)
      requires RetiredAmong(owner.all) == old(RetiredAmong(owner.all)) + if retired then {handle} else {}
      requires forall i :: i in owner.rooms && owner.rooms[i] != coordination ==>
                 owner.rooms[i].Contents() == old(owner.rooms[i].Contents())
      ensures owner.View() == Through(old(owner.View()), handle, Sees()).(made := owner.made)
      ensures owner.made == old(owner.made) ==> owner.View() == Through(old(owner.View()), handle, Sees())
    {
      OtherRooms();
      MyRoom();
      hide RoomsIn, RetiredAmong, RegisteredIn, RecordCache.Linked, RecordCache.Owns, StoreCoordination.Contents;
      assert owner.View().retired == Through(old(owner.View()), handle, Sees()).retired;
    }

    /** The same where this handle's own flag stays as it is. */
    twostate lemma ThroughMyRoom()
      requires owner.Linked() && owner.Owns(this)
      requires owner.all == old(owner.all) && owner.rooms == old(owner.rooms) && owner.stores == old(owner.stores)
      requires owner.deletions == old(owner.deletions)
      requires RetiredAmong(owner.all) == old(RetiredAmong(owner.all))
      requires forall i :: i in owner.rooms && owner.rooms[i] != coordination ==>
                 owner.rooms[i].Contents() == old(owner.rooms[i].Contents())
      ensures owner.View() == Through(old(owner.View()), handle, Sees()).(made := owner.made)
      ensures owner.made == old(owner.made) ==> owner.View() == Through(old(owner.View()), handle, Sees())
    {
      SeesFace();
      hide RoomsIn, RetiredAmong, RegisteredIn, RecordCache.Linked, RecordCache.Owns, StoreCoordination.Contents,
           RecordCache.View, Through, Sees;
      assert RetiredAmong(owner.all) == old(RetiredAmong(owner.all)) + if retired then {handle} else {};
      ThroughMe();
    }

    method Get(id: Id, now: int) returns (record: Option<Record>)
      requires owner.Valid() && owner.Owns(this)
      modifies owner`entries, owner`bytes
      ensures owner.Valid()
      ensures record == Answer(old(Sees()), handle, id, now)
      ensures Sees() == Answered(old(Sees()), handle, id, now)
      ensures old(retired || coordination.clearing > 0 || id in coordination.writes) ==>
        record.None? && owner.entries == old(owner.entries)
      ensures owner.View() == Through(old(owner.View()), handle, Sees())
    {
      hide RecordCache.Linked, RecordCache.Owns, RecordCache.View, Through, RetiredAmong;
      if retired || coordination.clearing > 0 || id in coordination.writes {
        record := None;
      } else {
        record := owner.Get(this, id, now);
      }
      ThroughMyRoom();
    }

    method BeginRead(id: Id, now: int) returns (lease: Lease)
      requires owner.Valid() && owner.Owns(this)
      modifies owner`made, coordination`readers, coordination`valid
      ensures owner.Valid()
      ensures lease == Lease(old(owner.made), now) && owner.made == old(owner.made) + 1
      ensures Sees() == ReadBegun(old(Sees()), id, lease)
      ensures owner.View() == Through(old(owner.View()), handle, Sees()).(made := owner.made)
    {
      hide RecordCache.Linked, RecordCache.Owns, RecordCache.View, Through, RetiredAmong;
      lease := Lease(owner.made, now);
      owner.made := owner.made + 1;
      if !retired && coordination.clearing == 0 && id !in coordination.writes {
        coordination.valid := coordination.valid + {lease};
      }
      var active := if id in coordination.readers then coordination.readers[id] else {};
      coordination.readers := coordination.readers[id := active + {lease}];
      owner.StaysLinked();
      ThroughMyRoom();
    }

    method EndRead(id: Id, lease: Lease, record: Option<Record>, now: int)
      requires owner.Valid() && owner.Owns(this)
      modifies owner`entries, owner`bytes, coordination`readers
      ensures owner.Valid()
      ensures Sees() == ReadEnded(old(Sees()), owner.config, handle, id, lease, record, now)
      ensures owner.View() == Through(old(owner.View()), handle, Sees())
    {
      hide RecordCache.Linked, RecordCache.Owns, RecordCache.View, Through, RetiredAmong, PutEntries, DistinctKeys;
      if id in coordination.readers {
        coordination.readers := coordination.readers[id := coordination.readers[id] - {lease}];
        if coordination.readers[id] == {} {
          coordination.readers := coordination.readers - {id};
        }
      }
      if record.Some? && lease in coordination.valid && !retired && coordination.clearing == 0 &&
        id !in coordination.writes {
        owner.Put(this, id, record.value, lease.started, now);
      }
      ThroughMyRoom();
    }

    method Invalidate(id: Option<Id>)
      requires owner.Valid() && owner.Owns(this)
      modifies owner`entries, owner`bytes, coordination`valid
      ensures owner.Valid()
      ensures Sees() == Invalidated(old(Sees()), handle.identity, id)
      ensures owner.View() == Through(old(owner.View()), handle, Sees())
    {
      hide RecordCache.Linked, RecordCache.Owns, RecordCache.View, Through, RetiredAmong;
      owner.Drop(handle.identity, id);
      ghost var room := coordination.Contents();
      var keys := coordination.readers.Keys;
      while keys != {}
        invariant keys <= room.readers.Keys
        invariant forall l :: l in coordination.valid <==>
          (l in room.valid &&
           !exists k :: k in room.readers && k !in keys && l in room.readers[k] && (id.None? || id.value == k))
        modifies coordination`valid
        decreases |keys|
      {
        var key :| key in keys;
        if id.None? || key == id.value {
          coordination.valid := coordination.valid - coordination.readers[key];
        }
        keys := keys - {key};
      }
      assert Sees().room.valid == Invalidated(old(Sees()), handle.identity, id).room.valid;
      ThroughMyRoom();
    }

    method BeginWrite(ids: seq<Id>)
      requires owner.Valid() && owner.Owns(this)
      modifies owner`entries, owner`bytes, coordination`valid, coordination`writes
      ensures owner.Valid()
      ensures Sees() == WriteBegun(old(Sees()), handle.identity, ids)
      ensures owner.View() == Through(old(owner.View()), handle, Sees())
    {
      hide RecordCache.Linked, RecordCache.Owns, RecordCache.View, Through, RetiredAmong;
      var i := 0;
      while i < |ids|
        invariant i <= |ids|
        invariant owner.Valid()
        invariant WriteBegun(Sees(), handle.identity, ids[i..]) == WriteBegun(old(Sees()), handle.identity, ids)
      {
        var id := ids[i];
        ghost var before := Sees();
        Invalidate(Some(id));
        var writes := if id in coordination.writes then coordination.writes[id] else 0;
        coordination.writes := coordination.writes[id := writes + 1];
        assert Sees() == OneWriteBegun(before, handle.identity, id);
        assert ids[i..][1..] == ids[i + 1..];
        i := i + 1;
      }
      ThroughMyRoom();
    }

    /** The closure `beginWrite` returned. */
    method SettleWrite(ids: seq<Id>)
      requires owner.Valid() && owner.Owns(this)
      modifies owner`entries, owner`bytes, coordination`valid, coordination`writes
      ensures owner.Valid()
      ensures Sees() == WriteSettled(old(Sees()), handle.identity, ids)
      ensures owner.View() == Through(old(owner.View()), handle, Sees())
    {
      hide RecordCache.Linked, RecordCache.Owns, RecordCache.View, Through, RetiredAmong;
      var i := 0;
      while i < |ids|
        invariant i <= |ids|
        invariant owner.Valid()
        invariant WriteSettled(Sees(), handle.identity, ids[i..]) == WriteSettled(old(Sees()), handle.identity, ids)
      {
        var id := ids[i];
        ghost var before := Sees();
        Invalidate(Some(id));
        var remaining := (if id in coordination.writes then coordination.writes[id] else 1) as int - 1;
        if remaining > 0 {
          coordination.writes := coordination.writes[id := remaining];
        } else {
          coordination.writes := coordination.writes - {id};
        }
        assert Sees() == OneWriteSettled(before, handle.identity, id);
        assert ids[i..][1..] == ids[i + 1..];
        i := i + 1;
      }
      ThroughMyRoom();
    }

    method BeginClear()
      requires owner.Valid() && owner.Owns(this)
      modifies owner`entries, owner`bytes, coordination`valid, coordination`clearing
      ensures owner.Valid()
      ensures Sees() == ClearBegun(old(Sees()), handle.identity)
      ensures owner.View() == Through(old(owner.View()), handle, Sees())
    {
      hide RecordCache.Linked, RecordCache.Owns, RecordCache.View, Through, RetiredAmong;
      Invalidate(None);
      coordination.clearing := coordination.clearing + 1;
      ThroughMyRoom();
    }

    /** The closure `beginClear` returned: it runs once, so a clear is in flight. */
    method SettleClear()
      requires owner.Valid() && owner.Owns(this) && coordination.clearing > 0
      modifies owner`entries, owner`bytes, coordination`valid, coordination`clearing
      ensures owner.Valid()
      ensures Sees() == ClearSettled(old(Sees()), handle.identity)
      ensures owner.View() == Through(old(owner.View()), handle, Sees())
    {
      hide RecordCache.Linked, RecordCache.Owns, RecordCache.View, Through, RetiredAmong;
      Invalidate(None);
      coordination.clearing := coordination.clearing - 1;
      ThroughMyRoom();
    }

    method Retire()
      requires owner.Valid() && owner.Owns(this)
      modifies this`retired, owner`entries, owner`bytes, coordination`valid
      ensures owner.Valid()
      ensures Sees() == Retired(old(Sees()), handle.identity)
      ensures owner.View() == Through(old(owner.View()), handle, Sees())
    {
      hide RecordCache.Linked, RecordCache.Owns, RecordCache.View, Through, RetiredAmong;
      retired := true;
      Invalidate(None);
      MyFlag();
      ThroughMe();
    }
  }
}
