/** Coherence of the record cache with the database, over every interleaving. */
module CacheCoherence {

  import opened Wrappers
  import opened RecordCaching

  // A step is one stretch of the program between two awaits: a handle operation of the cache, one
  // database statement, or a foreign statement. Foreign is what takes effect without a barrier of this
  // cache: a writer that does not go through it, or a write of its own whose query was rejected and
  // that the server commits after the barrier was settled.
  // Reads, writes, clears and collection drops are spread over several steps, so any number of them
  // may be in flight at once, in any order.

  type Database = map<Identity, map<Id, Record>>

  /** A read in flight; `fetched` is what its database statement returned. */
  datatype ReadOp = ReadOp(handle: Handle, id: Id, fetched: Option<Option<Record>>)

  /** A write, clear or collection drop in flight: its barrier is up. */
  datatype Op = Write(handle: Handle, ids: seq<Id>) | Clear(handle: Handle) | DropStore(handle: Handle)

  datatype Moment = Moment(time: int, db: Database)

  datatype Sys = Sys(
    cache: Snapshot,
    db: Database,
    pending: map<Lease, ReadOp>,
    ops: seq<Op>,
    history: seq<Moment>,                  // one moment per step
    touched: map<(Identity, Id), nat>)     // the step of the last hit or admission

  datatype Action =
    | OpenStore(identity: Identity)
    | Get(h: Handle, id: Id)
    | BeginRead(h: Handle, id: Id)
    | Fetch(lease: Lease)
    | EndRead(lease: Lease, admit: bool)
    | BeginWrite(h: Handle, ids: seq<Id>)
    | BeginClear(h: Handle)
    | BeginDrop(identity: Identity)
    | Apply(op: nat, table: map<Id, Record>)
    | Settle(op: nat)
    | DeleteStore(identity: Identity)
    | Foreign(identity: Identity, table: map<Id, Record>)

  function Lookup(db: Database, identity: Identity, id: Id): Option<Record> {
    if identity in db && id in db[identity] then Some(db[identity][id]) else None
  }

  ghost predicate Known(s: Snapshot, h: Handle) {
    h in s.handles && h.identity in s.rooms
  }

  // ---------------------------------------------------------------------------------------
  // The steps.
  // ---------------------------------------------------------------------------------------

  /** A statement of a write may change, partly change or not change the rows it names; a clear or
      a drop may leave the table in any state. */
  ghost predicate MayApply(op: Op, before: Database, table: map<Id, Record>) {
    match op
    case Write(h, ids) =>
      forall id :: id !in ids ==>
        Lookup(before[h.identity := table], h.identity, id) == Lookup(before, h.identity, id)
    case Clear(_) => true
    case DropStore(_) => true
  }

  ghost predicate Enabled(sys: Sys, a: Action) {
    match a
    case OpenStore(_) => true
    case Get(h, _) => Known(sys.cache, h)
    case BeginRead(h, _) => Known(sys.cache, h)
    case Fetch(l) => l in sys.pending && sys.pending[l].fetched.None?
    case EndRead(l, _) => l in sys.pending && Known(sys.cache, sys.pending[l].handle)
    case BeginWrite(h, _) => Known(sys.cache, h)
    case BeginClear(h) => Known(sys.cache, h)
    case BeginDrop(_) => true
    case Apply(k, table) => k < |sys.ops| && MayApply(sys.ops[k], sys.db, table)
    case Settle(k) =>
      && k < |sys.ops| && Known(sys.cache, sys.ops[k].handle)
      && (sys.ops[k].Clear? ==> sys.cache.rooms[sys.ops[k].handle.identity].clearing > 0)
    case DeleteStore(i) => i in sys.cache.stores ==> Known(sys.cache, sys.cache.stores[i])
    case Foreign(_, _) => true
  }

  ghost function Admitted(read: ReadOp, admit: bool): Option<Record> {
    if admit && read.fetched.Some? then read.fetched.value else None
  }

  ghost function Begun(s: Snapshot, op: Op): (r: Snapshot)
    requires Known(s, op.handle)
    ensures Known(r, op.handle)
  {
    var h, f := op.handle, FaceOf(s, op.handle);
    match op
    case Write(_, ids) => Through(s, h, WriteBegun(f, h.identity, ids))
    case Clear(_) => Through(s, h, ClearBegun(f, h.identity))
    case DropStore(_) => Through(s, h, Retired(f, h.identity)).(deletions := Incremented(s.deletions, h.identity))
  }

  ghost function Settled(s: Snapshot, op: Op): Snapshot
    requires Known(s, op.handle)
    requires op.Clear? ==> s.rooms[op.handle.identity].clearing > 0
  {
    var h, f := op.handle, FaceOf(s, op.handle);
    match op
    case Write(_, ids) => Through(s, h, WriteSettled(f, h.identity, ids))
    case Clear(_) => Through(s, h, ClearSettled(f, h.identity))
    case DropStore(_) => Through(s, h, Retired(f, h.identity)).(deletions := Decremented(s.deletions, h.identity))
  }

  ghost function WithReading(s: Snapshot, h: Handle, id: Id, now: int): Snapshot
    requires Known(s, h)
  {
    Through(s, h, ReadBegun(FaceOf(s, h), id, Lease(s.made, now))).(made := s.made + 1)
  }

  ghost function Removed(ops: seq<Op>, k: nat): seq<Op>
    requires k < |ops|
  {
    ops[..k] + ops[k + 1..]
  }

  /** The opened store with the handle `beginDeleteStore` works on. */
  ghost function DropHandle(s: Snapshot, identity: Identity): Handle {
    Opened(s, identity).stores[identity]
  }

  /** A step without its bookkeeping. */
  ghost function Core(sys: Sys, config: Config, a: Action, now: int): Sys
    requires Enabled(sys, a)
  {
    var s := sys.cache;
    match a
    case OpenStore(i) => sys.(cache := Opened(s, i))
    case Get(h, id) => sys.(cache := Through(s, h, Answered(FaceOf(s, h), h, id, now)))
    case BeginRead(h, id) =>
      sys.(cache := WithReading(s, h, id, now), pending := sys.pending[Lease(s.made, now) := ReadOp(h, id, None)])
    case Fetch(l) =>
      var r := sys.pending[l];
      sys.(pending := sys.pending[l := r.(fetched := Some(Lookup(sys.db, r.handle.identity, r.id)))])
    case EndRead(l, admit) =>
      var r := sys.pending[l];
      sys.(cache := Through(s, r.handle,
                            ReadEnded(FaceOf(s, r.handle), config, r.handle, r.id, l, Admitted(r, admit), now)),
           pending := sys.pending - {l})
    case BeginWrite(h, ids) => sys.(cache := Begun(s, Write(h, ids)), ops := sys.ops + [Write(h, ids)])
    case BeginClear(h) => sys.(cache := Begun(s, Clear(h)), ops := sys.ops + [Clear(h)])
    case BeginDrop(i) =>
      var op := DropStore(DropHandle(s, i));
      if Known(Opened(s, i), op.handle)
      then sys.(cache := Begun(Opened(s, i), op), ops := sys.ops + [op]) else sys
    case Apply(k, table) => sys.(db := sys.db[sys.ops[k].handle.identity := table])
    case Settle(k) => sys.(cache := Settled(s, sys.ops[k]), ops := Removed(sys.ops, k))
    case DeleteStore(i) =>
      if i in s.stores then
        sys.(cache := Through(s, s.stores[i], Retired(FaceOf(s, s.stores[i]), s.stores[i].identity)))
      else sys
    case Foreign(i, table) => sys.(db := sys.db[i := table])
  }

  /** The key a step uses, when it hits or admits. */
  ghost function Touches(sys: Sys, config: Config, a: Action, now: int): Option<(Identity, Id)>
    requires Enabled(sys, a)
  {
    match a
    case Get(h, id) =>
      if Answer(FaceOf(sys.cache, h), h, id, now).Some? then Some((h.identity, id)) else None
    case EndRead(l, admit) =>
      var r := sys.pending[l];
      var record := Admitted(r, admit);
      if record.Some? && Admits(FaceOf(sys.cache, r.handle), r.id, l) &&
        Admissible(config, record.value, l.started, now)
      then Some((r.handle.identity, r.id)) else None
    case _ => None
  }

  ghost function Next(sys: Sys, config: Config, a: Action, now: int): Sys
    requires Enabled(sys, a)
  {
    var n := Core(sys, config, a, now);
    var t := Touches(sys, config, a, now);
    n.(history := sys.history + [Moment(now, n.db)],
       touched := if t.Some? then sys.touched[t.value := |sys.history|] else sys.touched)
  }

  function Now(sys: Sys): int
    requires sys.history != []
  {
    sys.history[|sys.history| - 1].time
  }

  ghost predicate Initial(sys: Sys) {
    && sys.cache == EMPTY_SNAPSHOT && sys.pending == map[] && sys.ops == [] && sys.touched == map[]
    && |sys.history| == 1 && sys.history[0].db == sys.db
  }

  /** Steps may be taken in any enabled order, whatever the clock does. */
  ghost predicate Legal(sys: Sys, config: Config, steps: seq<(Action, int)>)
    decreases |steps|
  {
    steps == [] ||
    (&& Enabled(sys, steps[0].0)
     && Legal(Next(sys, config, steps[0].0, steps[0].1), config, steps[1..]))
  }

  ghost function After(sys: Sys, config: Config, steps: seq<(Action, int)>): Sys
    requires Legal(sys, config, steps)
    decreases |steps|
  {
    if steps == [] then sys
    else After(Next(sys, config, steps[0].0, steps[0].1), config, steps[1..])
  }

  ghost predicate NoForeignWriter(steps: seq<(Action, int)>) {
    forall k :: 0 <= k < |steps| ==> !steps[k].0.Foreign?
  }

  // ---------------------------------------------------------------------------------------
  // Barriers are counted exactly.
  // ---------------------------------------------------------------------------------------

  /** What a barrier stands in front of: one id, a whole store, or a store being dropped. */
  datatype Gate = OnId(identity: Identity, id: Id) | OnAll(identity: Identity) | OnStore(identity: Identity)

  function CountOf<K>(m: map<K, nat>, k: K): nat {
    if k in m then m[k] else 0
  }

  function Holds(op: Op, g: Gate): nat {
    if op.handle.identity != g.identity then 0
    else match op
      case Write(_, ids) => if g.OnId? then multiset(ids)[g.id] else 0
      case Clear(_) => if g.OnAll? then 1 else 0
      case DropStore(_) => if g.OnStore? then 1 else 0
  }

  function InFlight(ops: seq<Op>, g: Gate): nat {
    if ops == [] then 0 else Holds(ops[0], g) + InFlight(ops[1..], g)
  }

  function Level(s: Snapshot, g: Gate): nat
    requires g.identity in s.rooms
  {
    match g
    case OnId(i, id) => CountOf(s.rooms[i].writes, id)
    case OnAll(i) => s.rooms[i].clearing
    case OnStore(i) => CountOf(s.deletions, i)
  }

  lemma {:induction false} InFlightConcat(a: seq<Op>, b: seq<Op>, g: Gate)
    ensures InFlight(a + b, g) == InFlight(a, g) + InFlight(b, g)
  {
    if a == [] {
      assert a + b == b;
    } else {
      assert (a + b)[0] == a[0] && (a + b)[1..] == a[1..] + b;
      InFlightConcat(a[1..], b, g);
    }
  }

  lemma InFlightAppend(ops: seq<Op>, op: Op, g: Gate)
    ensures InFlight(ops + [op], g) == InFlight(ops, g) + Holds(op, g)
  {
    InFlightConcat(ops, [op], g);
    assert InFlight([op], g) == Holds(op, g) + InFlight([op][1..], g);
  }

  lemma InFlightRemove(ops: seq<Op>, k: nat, g: Gate)
    requires k < |ops|
    ensures InFlight(ops, g) == InFlight(Removed(ops, k), g) + Holds(ops[k], g)
  {
    assert ops == ops[..k] + ([ops[k]] + ops[k + 1..]);
    InFlightConcat(ops[..k], [ops[k]] + ops[k + 1..], g);
    InFlightConcat([ops[k]], ops[k + 1..], g);
    InFlightConcat(ops[..k], ops[k + 1..], g);
    assert InFlight([ops[k]], g) == Holds(ops[k], g) + InFlight([ops[k]][1..], g);
  }

  // ---------------------------------------------------------------------------------------
  // The invariants.
  // ---------------------------------------------------------------------------------------

  /** Handle generations: at most one handle of a store is not retired, it is the one `stores`
      gives out, and while a deletion is pending there is none. */
  ghost predicate Generations(s: Snapshot) {
    && s.stores.Keys == s.rooms.Keys
    && s.deletions.Keys <= s.stores.Keys
    && (forall h :: h in s.handles ==> h.identity in s.rooms && h.serial < s.made)
    && (forall i :: i in s.stores ==> s.stores[i] in s.handles && s.stores[i].identity == i)
    && (forall h :: h in s.handles && h !in s.retired ==> s.stores[h.identity] == h)
    && (forall i :: i in s.deletions ==> s.stores[i] in s.retired)
  }

  /** Every barrier counter equals the number of operations in flight that hold it. */
  ghost predicate Counted(sys: Sys) {
    && (forall k :: 0 <= k < |sys.ops| ==> Known(sys.cache, sys.ops[k].handle))
    && (forall g: Gate :: g.identity in sys.cache.rooms ==> Level(sys.cache, g) == InFlight(sys.ops, g))
    && (forall i, id :: i in sys.cache.rooms && id in sys.cache.rooms[i].writes ==> sys.cache.rooms[i].writes[id] > 0)
    && (forall i :: i in sys.cache.deletions ==> sys.cache.deletions[i] > 0)
  }

  ghost predicate Live(s: Snapshot, h: Handle, id: Id) {
    Known(s, h) && h !in s.retired && !Barred(s.rooms[h.identity], id)
  }

  ghost predicate EntriesLive(s: Snapshot) {
    forall e :: e in s.entries ==> Live(s, e.store, e.id)
  }

  ghost predicate Reading(s: Snapshot, l: Lease, r: ReadOp) {
    && l.serial < s.made && Known(s, r.handle)
    && r.id in s.rooms[r.handle.identity].readers && l in s.rooms[r.handle.identity].readers[r.id]
    && (l in s.rooms[r.handle.identity].valid ==> Live(s, r.handle, r.id))
  }

  ghost predicate ReadsLive(sys: Sys) {
    && (forall l :: l in sys.pending ==> Reading(sys.cache, l, sys.pending[l]))
    && (forall i, l :: i in sys.cache.rooms && l in sys.cache.rooms[i].valid ==> l.serial < sys.cache.made)
  }

  /** The structure every step keeps, foreign writers or not. */
  ghost predicate Structure(sys: Sys) {
    && Generations(sys.cache) && Counted(sys) && EntriesLive(sys.cache) && ReadsLive(sys)
    && DistinctKeys(sys.cache.entries)
  }

  /** Every entry, and every fetched value whose lease is still valid, is the database's. */
  ghost predicate EntriesCurrent(s: Snapshot, db: Database) {
    forall e :: e in s.entries ==> Lookup(db, e.store.identity, e.id) == Some(e.record)
  }

  ghost predicate FetchCurrent(s: Snapshot, db: Database, l: Lease, r: ReadOp) {
    r.handle.identity in s.rooms && l in s.rooms[r.handle.identity].valid && r.fetched.Some? ==>
      r.fetched.value == Lookup(db, r.handle.identity, r.id)
  }

  ghost predicate Coherent(sys: Sys) {
    EntriesCurrent(sys.cache, sys.db) &&
    forall l :: l in sys.pending ==> FetchCurrent(sys.cache, sys.db, l, sys.pending[l])
  }

  // ---------------------------------------------------------------------------------------
  // What a barrier does to the face of a handle.
  // ---------------------------------------------------------------------------------------

  /** `f` after some operation of a handle: nothing is admitted or made valid. */
  ghost predicate Shrunk(f: Face, r: Face) {
    && (forall e :: e in r.entries ==> e in f.entries)
    && (DistinctKeys(f.entries) ==> DistinctKeys(r.entries))
    && r.room.readers == f.room.readers
    && r.room.valid <= f.room.valid
    && (f.retired ==> r.retired)
  }

  /** No entry and no valid lease is left for an id. */
  ghost predicate Purged(r: Face, identity: Identity, id: Id) {
    && (forall e :: e in r.entries ==> !Selects(e, identity, Some(id)))
    && (id in r.room.readers ==> r.room.readers[id] !! r.room.valid)
  }

  lemma InvalidatedShrinks(f: Face, identity: Identity, id: Option<Id>)
    ensures Shrunk(f, Invalidated(f, identity, id))
    ensures Invalidated(f, identity, id).room == f.room.(valid := Invalidated(f, identity, id).room.valid)
    ensures Invalidated(f, identity, id).retired == f.retired
    ensures forall k :: id.None? || id.value == k ==> Purged(Invalidated(f, identity, id), identity, k)
    ensures forall k :: Purged(f, identity, k) ==> Purged(Invalidated(f, identity, id), identity, k)
  {
    WithoutKeeps(f.entries, identity, id);
    var r := Invalidated(f, identity, id);
    forall k | id.None? || id.value == k
      ensures Purged(r, identity, k)
    {
      forall e | e in r.entries
        ensures !Selects(e, identity, Some(k))
      {
        assert !Selects(e, identity, id);
      }
      if k in r.room.readers {
        forall l | l in r.room.readers[k]
          ensures l !in r.room.valid
        {
          assert LeaseFor(f.room, id, l);
        }
      }
    }
  }

  lemma PurgedStays(f: Face, r: Face, identity: Identity)
    requires r.entries == f.entries && r.room.readers == f.room.readers && r.room.valid == f.room.valid
    ensures forall k :: Purged(f, identity, k) ==> Purged(r, identity, k)
  {
  }

  /** The entries of other stores and ids stay, and so do the leases that read none of the ids. */
  ghost predicate Spares(f: Face, r: Face, identity: Identity, ids: seq<Id>) {
    && (forall e :: e in f.entries && !(e.store.identity == identity && e.id in ids) ==> e in r.entries)
    && (forall l ::
          l in f.room.valid && (forall id :: id in ids && id in f.room.readers ==> l !in f.room.readers[id]) ==>
          l in r.room.valid)
  }

  lemma InvalidatedSpares(f: Face, identity: Identity, id: Id)
    ensures Spares(f, Invalidated(f, identity, Some(id)), identity, [id])
  {
    WithoutKeeps(f.entries, identity, Some(id));
  }

  lemma SparesMore(f: Face, m: Face, r: Face, identity: Identity, ids: seq<Id>)
    requires ids != [] && Spares(f, m, identity, [ids[0]]) && Spares(m, r, identity, ids[1..])
    requires m.room.readers == f.room.readers
    ensures Spares(f, r, identity, ids)
  {
    assert ids == [ids[0]] + ids[1..];
    assert ids[0] in ids && forall id :: id in ids[1..] ==> id in ids;
    forall e | e in f.entries && !(e.store.identity == identity && e.id in ids)
      ensures e in r.entries
    {
      assert e in m.entries;
    }
  }

  /** `beginWrite` purges every id it names, spares everything else, and raises the counter of each
      id by its multiplicity. */
  lemma {:induction false} WriteBegunEffect(f: Face, identity: Identity, ids: seq<Id>)
    ensures var r := WriteBegun(f, identity, ids);
      && Shrunk(f, r) && r.retired == f.retired && r.room.clearing == f.room.clearing
      && (forall id :: id in ids ==> Purged(r, identity, id)) && Spares(f, r, identity, ids)
      && (forall id :: Purged(f, identity, id) ==> Purged(r, identity, id))
      && (forall id :: CountOf(r.room.writes, id) == CountOf(f.room.writes, id) + multiset(ids)[id])
      && (forall id :: id in r.room.writes <==> id in f.room.writes || id in ids)
      && ((forall id :: id in f.room.writes ==> f.room.writes[id] > 0) ==>
           forall id :: id in r.room.writes ==> r.room.writes[id] > 0)
    decreases |ids|
  {
    if ids != [] {
      InvalidatedShrinks(f, identity, Some(ids[0]));
      assert Purged(Invalidated(f, identity, Some(ids[0])), identity, ids[0]);
      var m := OneWriteBegun(f, identity, ids[0]);
      PurgedStays(Invalidated(f, identity, Some(ids[0])), m, identity);
      WriteBegunEffect(m, identity, ids[1..]);
      InvalidatedSpares(f, identity, ids[0]);
      SparesMore(f, m, WriteBegun(f, identity, ids), identity, ids);
      assert ids == [ids[0]] + ids[1..];
      assert multiset(ids) == multiset{ids[0]} + multiset(ids[1..]);
    }
  }

  /** Settling purges the ids again, spares everything else, and lowers the counters by the same
      amounts. */
  lemma {:induction false} WriteSettledEffect(f: Face, identity: Identity, ids: seq<Id>)
    requires forall id :: id in ids ==> CountOf(f.room.writes, id) >= multiset(ids)[id]
    requires forall id :: id in f.room.writes ==> f.room.writes[id] > 0
    ensures var r := WriteSettled(f, identity, ids);
      && Shrunk(f, r) && r.retired == f.retired && r.room.clearing == f.room.clearing
      && (forall id :: id in ids ==> Purged(r, identity, id)) && Spares(f, r, identity, ids)
      && (forall id :: Purged(f, identity, id) ==> Purged(r, identity, id))
      && (forall id :: CountOf(r.room.writes, id) == CountOf(f.room.writes, id) - multiset(ids)[id])
      && (forall id :: id in r.room.writes ==> r.room.writes[id] > 0 && id in f.room.writes)
    decreases |ids|
  {
    if ids != [] {
      InvalidatedShrinks(f, identity, Some(ids[0]));
      assert Purged(Invalidated(f, identity, Some(ids[0])), identity, ids[0]);
      var m := OneWriteSettled(f, identity, ids[0]);
      PurgedStays(Invalidated(f, identity, Some(ids[0])), m, identity);
      assert ids == [ids[0]] + ids[1..];
      assert multiset(ids) == multiset{ids[0]} + multiset(ids[1..]);
      forall id | id in ids[1..]
        ensures CountOf(m.room.writes, id) >= multiset(ids[1..])[id]
      {
        assert id in ids;
        assert multiset(ids)[id] == multiset{ids[0]}[id] + multiset(ids[1..])[id];
      }
      WriteSettledEffect(m, identity, ids[1..]);
      InvalidatedSpares(f, identity, ids[0]);
      SparesMore(f, m, WriteSettled(f, identity, ids), identity, ids);
    }
  }

  // ---------------------------------------------------------------------------------------
  // Every step keeps the structure, and coherence when no foreign writer steps.
  // ---------------------------------------------------------------------------------------

  ghost predicate Good(sys: Sys, n: Sys) {
    Structure(n) && (Coherent(sys) ==> Coherent(n))
  }

  /** The barrier or retirement that `r` has and `f` had not. */
  ghost predicate Raised(f: Face, r: Face, id: Id) {
    (Barred(r.room, id) && !Barred(f.room, id)) || (r.retired && !f.retired)
  }

  /** An operation that admits nothing, and purges what it newly stands in front of, is safe. */
  lemma ShrinkKeeps(sys: Sys, h: Handle, r: Face)
    requires Structure(sys) && Known(sys.cache, h)
    requires Shrunk(FaceOf(sys.cache, h), r)
    requires forall id :: Raised(FaceOf(sys.cache, h), r, id) ==> Purged(r, h.identity, id)
    ensures var n := sys.(cache := Through(sys.cache, h, r));
      && Generations(n.cache) && EntriesLive(n.cache) && ReadsLive(n) && DistinctKeys(n.cache.entries)
      && (Coherent(sys) ==> Coherent(n))
  {
    var s := sys.cache;
    var n := sys.(cache := Through(s, h, r));
    var f := FaceOf(s, h);
    forall e | e in n.cache.entries
      ensures Live(n.cache, e.store, e.id)
    {
      assert e in s.entries && Live(s, e.store, e.id);
      if e.store.identity == h.identity {
        assert s.stores[h.identity] == e.store;
        assert Selects(e, h.identity, Some(e.id)) && !Raised(f, r, e.id);
      }
    }
    forall l | l in n.pending
      ensures Reading(n.cache, l, n.pending[l])
      ensures Coherent(sys) ==> FetchCurrent(n.cache, n.db, l, n.pending[l])
    {
      var q := n.pending[l];
      assert Reading(s, l, q);
      assert Coherent(sys) ==> FetchCurrent(s, sys.db, l, q);
      if q.handle.identity == h.identity && l in n.cache.rooms[h.identity].valid {
        assert s.stores[h.identity] == q.handle;
        assert !Purged(r, h.identity, q.id) && !Raised(f, r, q.id);
      }
    }
  }

  /** Beginning an operation adds exactly its own barriers. */
  lemma BegunLevels(s: Snapshot, op: Op, g: Gate)
    requires Known(s, op.handle) && g.identity in s.rooms
    ensures Level(Begun(s, op), g) == Level(s, g) + Holds(op, g)
  {
    if op.Write? {
      WriteBegunEffect(FaceOf(s, op.handle), op.handle.identity, op.ids);
    }
  }

  lemma BegunShrinks(s: Snapshot, op: Op)
    requires Known(s, op.handle)
    ensures var f := FaceOf(s, op.handle);
      var r := FaceOf(Begun(s, op), op.handle);
      && Shrunk(f, r)
      && (forall id :: Raised(f, r, id) ==> Purged(r, op.handle.identity, id))
      && Begun(s, op) == Through(s, op.handle, r).(deletions := Begun(s, op).deletions)
  {
    var h, f := op.handle, FaceOf(s, op.handle);
    var r := FaceOf(Begun(s, op), h);
    InvalidatedShrinks(f, h.identity, None);
    match op {
      case Write(_, ids) =>
        WriteBegunEffect(f, h.identity, ids);
      case Clear(_) =>
        PurgedStays(Invalidated(f, h.identity, None), r, h.identity);
      case DropStore(_) =>
        PurgedStays(Invalidated(f, h.identity, None), r, h.identity);
    }
  }

  /** Only the deletion counters and the list of operations differ. */
  lemma DeletionsKeep(m: Sys, n: Sys)
    requires Generations(m.cache) && EntriesLive(m.cache) && ReadsLive(m) && DistinctKeys(m.cache.entries)
    requires n == m.(cache := m.cache.(deletions := n.cache.deletions), ops := n.ops)
    requires n.cache.deletions.Keys <= m.cache.stores.Keys
    requires forall i :: i in n.cache.deletions ==> m.cache.stores[i] in m.cache.retired
    ensures Generations(n.cache) && EntriesLive(n.cache) && ReadsLive(n) && DistinctKeys(n.cache.entries)
    ensures Coherent(m) ==> Coherent(n)
  {
    assert n.cache.entries == m.cache.entries && n.pending == m.pending;
    forall e | e in n.cache.entries
      ensures Live(n.cache, e.store, e.id)
    {
      assert Live(m.cache, e.store, e.id);
    }
    forall l | l in n.pending
      ensures Reading(n.cache, l, n.pending[l])
      ensures Coherent(m) ==> FetchCurrent(n.cache, n.db, l, n.pending[l])
    {
      assert Reading(m.cache, l, n.pending[l]);
      assert Coherent(m) ==> FetchCurrent(m.cache, n.db, l, n.pending[l]);
    }
  }

  lemma BegunKeeps(sys: Sys, op: Op)
    requires Structure(sys) && Known(sys.cache, op.handle)
    requires op.DropStore? ==> sys.cache.stores[op.handle.identity] == op.handle
    ensures var n := sys.(cache := Begun(sys.cache, op), ops := sys.ops + [op]);
      Good(sys, n)
  {
    hide Begun, Counted, Generations, EntriesLive, ReadsLive, Coherent, Through, Shrunk, Purged, Raised, FaceOf;
    var s := sys.cache;
    var n := sys.(cache := Begun(s, op), ops := sys.ops + [op]);
    var r := FaceOf(n.cache, op.handle);
    BegunShrinks(s, op);
    ShrinkKeeps(sys, op.handle, r);
    BegunDeletions(sys, op, r);
    DeletionsKeep(sys.(cache := Through(s, op.handle, r)), n);
    BegunCounted(sys, op);
  }

  lemma BegunDeletions(sys: Sys, op: Op, r: Face)
    requires Structure(sys) && Known(sys.cache, op.handle) && r == FaceOf(Begun(sys.cache, op), op.handle)
    requires op.DropStore? ==> sys.cache.stores[op.handle.identity] == op.handle
    ensures var s, n := Through(sys.cache, op.handle, r), Begun(sys.cache, op);
      n.deletions.Keys <= s.stores.Keys && forall i :: i in n.deletions ==> s.stores[i] in s.retired
  {
    hide EntriesLive, ReadsLive, Counted, WriteBegun, ClearBegun;
    BegunShrinks(sys.cache, op);
  }

  lemma BegunCounted(sys: Sys, op: Op)
    requires Counted(sys) && Known(sys.cache, op.handle)
    ensures Counted(sys.(cache := Begun(sys.cache, op), ops := sys.ops + [op]))
  {
    var s := sys.cache;
    var n := sys.(cache := Begun(s, op), ops := sys.ops + [op]);
    forall g: Gate | g.identity in n.cache.rooms
      ensures Level(n.cache, g) == InFlight(n.ops, g)
    {
      BegunLevels(s, op, g);
      InFlightAppend(sys.ops, op, g);
    }
    if op.Write? {
      WriteBegunEffect(FaceOf(s, op.handle), op.handle.identity, op.ids);
    }
    forall k | 0 <= k < |n.ops|
      ensures Known(n.cache, n.ops[k].handle)
    {
      assert k < |sys.ops| ==> Known(s, sys.ops[k].handle);
    }
  }

  /** Settling an operation that is in flight takes away exactly its own barriers. */
  lemma SettledLevels(sys: Sys, k: nat, g: Gate)
    requires Structure(sys) && k < |sys.ops| && g.identity in sys.cache.rooms
    ensures sys.ops[k].Clear? ==> sys.cache.rooms[sys.ops[k].handle.identity].clearing > 0
    ensures Level(Settled(sys.cache, sys.ops[k]), g) + Holds(sys.ops[k], g) == Level(sys.cache, g)
  {
    var op, s := sys.ops[k], sys.cache;
    InFlightRemove(sys.ops, k, g);
    InFlightRemove(sys.ops, k, OnAll(op.handle.identity));
    assert Level(s, OnAll(op.handle.identity)) == InFlight(sys.ops, OnAll(op.handle.identity));
    InFlightRemove(sys.ops, k, OnStore(op.handle.identity));
    assert Level(s, OnStore(op.handle.identity)) == InFlight(sys.ops, OnStore(op.handle.identity));
    if op.Write? {
      WriteCounted(sys, k);
      WriteSettledEffect(FaceOf(s, op.handle), op.handle.identity, op.ids);
    }
  }

  lemma WriteCounted(sys: Sys, k: nat)
    requires Structure(sys) && k < |sys.ops| && sys.ops[k].Write?
    ensures var op := sys.ops[k];
      forall id :: id in op.ids ==>
        CountOf(sys.cache.rooms[op.handle.identity].writes, id) >= multiset(op.ids)[id]
  {
    var op := sys.ops[k];
    forall id | id in op.ids
      ensures CountOf(sys.cache.rooms[op.handle.identity].writes, id) >= multiset(op.ids)[id]
    {
      var g := OnId(op.handle.identity, id);
      InFlightRemove(sys.ops, k, g);
      assert Level(sys.cache, g) == InFlight(sys.ops, g);
    }
  }

  lemma SettledShrinks(sys: Sys, k: nat)
    requires Structure(sys) && k < |sys.ops|
    requires sys.ops[k].Clear? ==> sys.cache.rooms[sys.ops[k].handle.identity].clearing > 0
    ensures var s, op := sys.cache, sys.ops[k];
      var f := FaceOf(s, op.handle);
      var r := FaceOf(Settled(s, op), op.handle);
      && Shrunk(f, r)
      && (forall id :: Raised(f, r, id) ==> Purged(r, op.handle.identity, id))
      && Settled(s, op) == Through(s, op.handle, r).(deletions := Settled(s, op).deletions)
      && (forall id :: id in r.room.writes ==> r.room.writes[id] > 0)
  {
    var s, op := sys.cache, sys.ops[k];
    var f := FaceOf(s, op.handle);
    var r := FaceOf(Settled(s, op), op.handle);
    InvalidatedShrinks(f, op.handle.identity, None);
    match op {
      case Write(_, ids) =>
        WriteCounted(sys, k);
        WriteSettledEffect(f, op.handle.identity, ids);
      case Clear(_) =>
        PurgedStays(Invalidated(f, op.handle.identity, None), r, op.handle.identity);
      case DropStore(_) =>
        PurgedStays(Invalidated(f, op.handle.identity, None), r, op.handle.identity);
    }
  }

  lemma SettledKeeps(sys: Sys, k: nat)
    requires Structure(sys) && k < |sys.ops|
    requires sys.ops[k].Clear? ==> sys.cache.rooms[sys.ops[k].handle.identity].clearing > 0
    ensures var n := sys.(cache := Settled(sys.cache, sys.ops[k]), ops := Removed(sys.ops, k));
      Good(sys, n)
  {
    assert Known(sys.cache, sys.ops[k].handle);
    hide Settled, Counted, Generations, EntriesLive, ReadsLive, Coherent, Through, Shrunk, Purged, Raised, FaceOf,
         Known;
    var s, op := sys.cache, sys.ops[k];
    var n := sys.(cache := Settled(s, op), ops := Removed(sys.ops, k));
    var r := FaceOf(n.cache, op.handle);
    SettledShrinks(sys, k);
    ShrinkKeeps(sys, op.handle, r);
    SettledDeletions(sys, k, r);
    DeletionsKeep(sys.(cache := Through(s, op.handle, r)), n);
    SettledCounted(sys, k);
  }

  lemma SettledDeletions(sys: Sys, k: nat, r: Face)
    requires Structure(sys) && k < |sys.ops|
    requires sys.ops[k].Clear? ==> sys.cache.rooms[sys.ops[k].handle.identity].clearing > 0
    requires r == FaceOf(Settled(sys.cache, sys.ops[k]), sys.ops[k].handle)
    ensures var s, n := Through(sys.cache, sys.ops[k].handle, r), Settled(sys.cache, sys.ops[k]);
      n.deletions.Keys <= s.stores.Keys && forall i :: i in n.deletions ==> s.stores[i] in s.retired
  {
    hide EntriesLive, ReadsLive, WriteSettled, ClearSettled;
    SettledShrinks(sys, k);
  }

  lemma SettledCounted(sys: Sys, k: nat)
    requires Structure(sys) && k < |sys.ops|
    requires sys.ops[k].Clear? ==> sys.cache.rooms[sys.ops[k].handle.identity].clearing > 0
    ensures Counted(sys.(cache := Settled(sys.cache, sys.ops[k]), ops := Removed(sys.ops, k)))
  {
    var s, op := sys.cache, sys.ops[k];
    var n := sys.(cache := Settled(s, op), ops := Removed(sys.ops, k));
    SettledShrinks(sys, k);
    forall g: Gate | g.identity in n.cache.rooms
      ensures Level(n.cache, g) == InFlight(n.ops, g)
    {
      SettledLevels(sys, k, g);
      InFlightRemove(sys.ops, k, g);
    }
    forall j | 0 <= j < |n.ops|
      ensures Known(n.cache, n.ops[j].handle)
    {
      assert n.ops[j] == sys.ops[if j < k then j else j + 1];
    }
  }

  lemma {:induction false} NothingInFlight(ops: seq<Op>, g: Gate)
    requires forall k :: 0 <= k < |ops| ==> ops[k].handle.identity != g.identity
    ensures InFlight(ops, g) == 0
  {
    if ops != [] {
      assert ops[0].handle.identity != g.identity;
      forall k | 0 <= k < |ops[1..]|
        ensures ops[1..][k].handle.identity != g.identity
      {
        assert ops[1..][k] == ops[k + 1];
      }
      NothingInFlight(ops[1..], g);
    }
  }

  lemma OpenedKeeps(sys: Sys, identity: Identity)
    requires Structure(sys)
    ensures var n := sys.(cache := Opened(sys.cache, identity));
      Good(sys, n)
    ensures Known(Opened(sys.cache, identity), DropHandle(sys.cache, identity))
    ensures DropHandle(sys.cache, identity).identity == identity
  {
    hide Counted, Coherent, EntriesLive, ReadsLive;
    OpenedLive(sys, identity);
    OpenedCounted(sys, identity);
  }

  lemma OpenedLive(sys: Sys, identity: Identity)
    requires Structure(sys)
    ensures var n := sys.(cache := Opened(sys.cache, identity));
      EntriesLive(n.cache) && ReadsLive(n) && (Coherent(sys) ==> Coherent(n))
  {
    hide Counted;
    var s := sys.cache;
    var n := sys.(cache := Opened(s, identity));
    if Renews(s, identity) {
      forall e | e in n.cache.entries
        ensures Live(n.cache, e.store, e.id)
      {
        assert Live(s, e.store, e.id);
      }
      forall l | l in n.pending
        ensures Reading(n.cache, l, n.pending[l])
        ensures Coherent(sys) ==> FetchCurrent(n.cache, n.db, l, n.pending[l])
      {
        assert Reading(s, l, n.pending[l]);
        assert Coherent(sys) ==> FetchCurrent(s, n.db, l, n.pending[l]);
      }
    }
  }

  lemma OpenedCounted(sys: Sys, identity: Identity)
    requires Generations(sys.cache) && Counted(sys)
    ensures Counted(sys.(cache := Opened(sys.cache, identity)))
  {
    var s := sys.cache;
    var n := sys.(cache := Opened(s, identity));
    forall g: Gate | g.identity in n.cache.rooms
      ensures Level(n.cache, g) == InFlight(n.ops, g)
    {
      if g.identity in s.rooms {
        assert Level(s, g) == InFlight(sys.ops, g);
      } else {
        NothingInFlight(sys.ops, g);
      }
    }
    forall k | 0 <= k < |n.ops|
      ensures Known(n.cache, n.ops[k].handle)
    {
      assert Known(s, sys.ops[k].handle);
    }
  }

  lemma ReadBegunReads(sys: Sys, h: Handle, id: Id, now: int)
    requires Structure(sys) && Known(sys.cache, h)
    ensures var n := Core(sys, Config(true, 1, 1, 1), BeginRead(h, id), now);
      ReadsLive(n) && (Coherent(sys) ==> forall l :: l in n.pending ==> FetchCurrent(n.cache, n.db, l, n.pending[l]))
  {
    var s := sys.cache;
    var n := Core(sys, Config(true, 1, 1, 1), BeginRead(h, id), now);
    forall l | l in n.pending
      ensures Reading(n.cache, l, n.pending[l])
      ensures Coherent(sys) ==> FetchCurrent(n.cache, n.db, l, n.pending[l])
    {
      if l != Lease(s.made, now) {
        assert Reading(s, l, sys.pending[l]);
        assert Coherent(sys) ==> FetchCurrent(s, n.db, l, sys.pending[l]);
      }
    }
  }

  lemma ReadBegunKeeps(sys: Sys, config: Config, h: Handle, id: Id, now: int)
    requires Structure(sys) && Known(sys.cache, h)
    ensures Good(sys, Core(sys, config, BeginRead(h, id), now))
  {
    var s := sys.cache;
    var n := WithReading(s, h, id, now);
    ReadBegunReads(sys, h, id, now);
    forall e | e in n.entries
      ensures Live(n, e.store, e.id)
    {
      assert Live(s, e.store, e.id);
    }
    SameLevels(sys, n);
  }

  /** Ending a read admits at most the record it fetched, and only under a lease that is valid. */
  lemma EndedEntries(s: Snapshot, config: Config, h: Handle, id: Id, l: Lease, record: Option<Record>, now: int)
    requires config.Valid() && Known(s, h) && DistinctKeys(s.entries)
    ensures var r := ReadEnded(FaceOf(s, h), config, h, id, l, record, now);
      && DistinctKeys(r.entries)
      && forall e :: e in r.entries && e !in s.entries ==>
           && record.Some? && Admits(FaceOf(s, h), id, l) && Admissible(config, record.value, l.started, now)
           && e == NewEntry(config, h, id, record.value, l.started)
  {
    var f := FaceOf(s, h);
    if record.Some? && Admits(f, id, l) && Admissible(config, record.value, l.started, now) {
      PutKeepsBounds(s.entries, config, h, id, record.value, l.started, now);
      var r := ReadEnded(f, config, h, id, l, record, now).entries;
      forall e | e in r
        ensures e in s.entries || e == NewEntry(config, h, id, record.value, l.started)
      {
        var j :| 0 <= j < |r| && r[j] == e;
        if j < |r| - 1 {
          assert r[..|r| - 1][j] == e;
        }
      }
    }
  }

  lemma ReadEndedEntries(sys: Sys, config: Config, l: Lease, admit: bool, now: int)
    requires config.Valid() && Structure(sys) && l in sys.pending
    ensures var n := Core(sys, config, EndRead(l, admit), now);
      && EntriesLive(n.cache) && DistinctKeys(n.cache.entries)
      && (Coherent(sys) ==> EntriesCurrent(n.cache, n.db))
  {
    var s, q := sys.cache, sys.pending[l];
    assert Reading(s, l, q);
    var n := Core(sys, config, EndRead(l, admit), now);
    EndedEntries(s, config, q.handle, q.id, l, Admitted(q, admit), now);
    assert Coherent(sys) ==> FetchCurrent(s, sys.db, l, q);
    forall e | e in n.cache.entries
      ensures Live(n.cache, e.store, e.id)
      ensures Coherent(sys) ==> Lookup(sys.db, e.store.identity, e.id) == Some(e.record)
    {
      assert e in s.entries ==> Live(s, e.store, e.id);
    }
  }

  lemma ReadEndedReads(sys: Sys, config: Config, l: Lease, admit: bool, now: int)
    requires config.Valid() && Structure(sys) && l in sys.pending
    ensures var n := Core(sys, config, EndRead(l, admit), now);
      && ReadsLive(n)
      && (Coherent(sys) ==> forall m :: m in n.pending ==> FetchCurrent(n.cache, n.db, m, n.pending[m]))
  {
    var s, q := sys.cache, sys.pending[l];
    var n := Core(sys, config, EndRead(l, admit), now);
    forall m | m in n.pending
      ensures Reading(n.cache, m, n.pending[m])
      ensures Coherent(sys) ==> FetchCurrent(n.cache, n.db, m, n.pending[m])
    {
      assert Reading(s, m, sys.pending[m]) && m != l;
      assert Coherent(sys) ==> FetchCurrent(s, sys.db, m, sys.pending[m]);
      var p := n.pending[m];
      if p.handle.identity == q.handle.identity && p.id == q.id {
        assert m in s.rooms[q.handle.identity].readers[q.id] - {l};
      }
    }
  }

  lemma ReadEndedKeeps(sys: Sys, config: Config, l: Lease, admit: bool, now: int)
    requires config.Valid() && Structure(sys) && l in sys.pending
    ensures Good(sys, Core(sys, config, EndRead(l, admit), now))
  {
    assert Reading(sys.cache, l, sys.pending[l]);
    ReadEndedEntries(sys, config, l, admit, now);
    ReadEndedReads(sys, config, l, admit, now);
    SameLevels(sys, Core(sys, config, EndRead(l, admit), now).cache);
  }

  lemma AnsweredShrinks(f: Face, h: Handle, id: Id, now: int)
    requires DistinctKeys(f.entries)
    ensures Shrunk(f, Answered(f, h, id, now))
    ensures Answered(f, h, id, now).room == f.room && Answered(f, h, id, now).retired == f.retired
  {
    GotKeepsDistinct(f.entries, h, id, now);
  }

  /** Operations that leave every barrier as it is keep the counts. */
  lemma SameLevels(sys: Sys, s: Snapshot)
    requires Structure(sys)
    requires s.deletions == sys.cache.deletions && s.handles == sys.cache.handles &&
      s.rooms.Keys == sys.cache.rooms.Keys
    requires forall i :: i in s.rooms ==>
      s.rooms[i].writes == sys.cache.rooms[i].writes && s.rooms[i].clearing == sys.cache.rooms[i].clearing
    ensures Counted(sys.(cache := s))
  {
    var n := sys.(cache := s);
    forall g: Gate | g.identity in s.rooms
      ensures Level(s, g) == InFlight(n.ops, g)
    {
      assert Level(sys.cache, g) == InFlight(sys.ops, g);
    }
    forall k | 0 <= k < |n.ops|
      ensures Known(s, n.ops[k].handle)
    {
      assert Known(sys.cache, sys.ops[k].handle);
    }
  }

  /** A database statement of an operation in flight changes only rows nobody may serve. */
  lemma ApplyKeeps(sys: Sys, k: nat, table: map<Id, Record>)
    requires Structure(sys) && k < |sys.ops| && MayApply(sys.ops[k], sys.db, table)
    requires Coherent(sys)
    ensures Coherent(sys.(db := sys.db[sys.ops[k].handle.identity := table]))
  {
    var op, s := sys.ops[k], sys.cache;
    var n := sys.(db := sys.db[op.handle.identity := table]);
    assert Known(s, op.handle);
    forall h, id | Live(s, h, id) && s.stores[h.identity] == h
      ensures Lookup(n.db, h.identity, id) == Lookup(sys.db, h.identity, id)
    {
      if h.identity == op.handle.identity {
        BarrierUp(sys, k, id);
      }
    }
    forall e | e in s.entries
      ensures Lookup(n.db, e.store.identity, e.id) == Some(e.record)
    {
      assert Live(s, e.store, e.id);
    }
    forall l | l in n.pending
      ensures FetchCurrent(s, n.db, l, n.pending[l])
    {
      assert Reading(s, l, sys.pending[l]) && FetchCurrent(s, sys.db, l, sys.pending[l]);
    }
  }

  /** While an operation is in flight its own barrier is up, whoever else comes and goes. */
  lemma BarrierUp(sys: Sys, k: nat, id: Id)
    requires Structure(sys) && k < |sys.ops|
    ensures var i := sys.ops[k].handle.identity;
      match sys.ops[k]
      case Write(_, ids) => id in ids ==> id in sys.cache.rooms[i].writes
      case Clear(_) => sys.cache.rooms[i].clearing > 0
      case DropStore(_) => i in sys.cache.deletions && sys.cache.stores[i] in sys.cache.retired
  {
    var op, i := sys.ops[k], sys.ops[k].handle.identity;
    var g := match op case Write(_, _) => OnId(i, id) case Clear(_) => OnAll(i) case DropStore(_) => OnStore(i);
    assert Known(sys.cache, op.handle);
    InFlightRemove(sys.ops, k, g);
    assert Level(sys.cache, g) == InFlight(sys.ops, g);
  }

  lemma GetKeeps(sys: Sys, h: Handle, id: Id, now: int)
    requires Structure(sys) && Known(sys.cache, h)
    ensures var n := sys.(cache := Through(sys.cache, h, Answered(FaceOf(sys.cache, h), h, id, now)));
      Good(sys, n)
  {
    hide Answered, Coherent, EntriesLive, ReadsLive, Counted;
    var f := FaceOf(sys.cache, h);
    AnsweredShrinks(f, h, id, now);
    ShrinkKeeps(sys, h, Answered(f, h, id, now));
    SameLevels(sys, Through(sys.cache, h, Answered(f, h, id, now)));
  }

  lemma RetiredKeeps(sys: Sys, h: Handle)
    requires Structure(sys) && Known(sys.cache, h)
    ensures var n := sys.(cache := Through(sys.cache, h, Retired(FaceOf(sys.cache, h), h.identity)));
      Good(sys, n)
  {
    var f := FaceOf(sys.cache, h);
    InvalidatedShrinks(f, h.identity, None);
    PurgedStays(Invalidated(f, h.identity, None), Retired(f, h.identity), h.identity);
    ShrinkKeeps(sys, h, Retired(f, h.identity));
    SameLevels(sys, Through(sys.cache, h, Retired(f, h.identity)));
  }

  lemma DropBegunKeeps(sys: Sys, identity: Identity)
    requires Structure(sys)
    ensures var op := DropStore(DropHandle(sys.cache, identity));
      && Known(Opened(sys.cache, identity), op.handle)
      && var n := sys.(cache := Begun(Opened(sys.cache, identity), op), ops := sys.ops + [op]);
         Good(sys, n)
  {
    OpenedKeeps(sys, identity);
    BegunKeeps(sys.(cache := Opened(sys.cache, identity)), DropStore(DropHandle(sys.cache, identity)));
  }

  /** One step, whichever it is. */
  lemma CoreKeeps(sys: Sys, config: Config, a: Action, now: int)
    requires config.Valid() && Structure(sys) && Enabled(sys, a)
    ensures if a.Foreign? then Structure(Core(sys, config, a, now)) else Good(sys, Core(sys, config, a, now))
  {
    match a {
      case OpenStore(i) => OpenedKeeps(sys, i);
      case Get(h, id) => GetKeeps(sys, h, id, now);
      case BeginRead(h, id) => ReadBegunKeeps(sys, config, h, id, now);
      case Fetch(l) => FetchKeeps(sys, l);
      case EndRead(l, admit) => ReadEndedKeeps(sys, config, l, admit, now);
      case BeginWrite(h, ids) => BegunKeeps(sys, Write(h, ids));
      case BeginClear(h) => BegunKeeps(sys, Clear(h));
      case BeginDrop(i) => DropBegunKeeps(sys, i);
      case Apply(k, table) =>
        if Coherent(sys) { ApplyKeeps(sys, k, table); }
      case Settle(k) => SettledKeeps(sys, k);
      case DeleteStore(i) =>
        if i in sys.cache.stores { RetiredKeeps(sys, sys.cache.stores[i]); }
      case Foreign(i, table) =>
    }
  }

  lemma NextKeeps(sys: Sys, config: Config, a: Action, now: int)
    requires config.Valid() && Structure(sys) && Enabled(sys, a)
    ensures Structure(Next(sys, config, a, now))
    ensures Coherent(sys) && !a.Foreign? ==> Coherent(Next(sys, config, a, now))
  {
    CoreKeeps(sys, config, a, now);
  }

  lemma FetchKeeps(sys: Sys, l: Lease)
    requires Structure(sys) && l in sys.pending
    ensures var q := sys.pending[l];
      var n := sys.(pending := sys.pending[l := q.(fetched := Some(Lookup(sys.db, q.handle.identity, q.id)))]);
      Good(sys, n)
  {
    var q := sys.pending[l];
    var n := sys.(pending := sys.pending[l := q.(fetched := Some(Lookup(sys.db, q.handle.identity, q.id)))]);
    forall m | m in n.pending
      ensures Reading(n.cache, m, n.pending[m])
      ensures Coherent(sys) ==> FetchCurrent(n.cache, n.db, m, n.pending[m])
    {
      assert Reading(sys.cache, m, sys.pending[m]);
      assert Coherent(sys) ==> FetchCurrent(sys.cache, sys.db, m, sys.pending[m]);
    }
  }

  // ---------------------------------------------------------------------------------------
  // Whole runs.
  // ---------------------------------------------------------------------------------------

  lemma InitialHolds(sys: Sys)
    requires Initial(sys)
    ensures Structure(sys) && Coherent(sys)
  {
  }

  /** In every reachable state the structure holds, and coherence too while every writer of the
      database goes through this cache. */
  lemma {:induction false} RunsKeep(sys: Sys, config: Config, steps: seq<(Action, int)>)
    requires config.Valid() && Structure(sys) && Legal(sys, config, steps)
    ensures Structure(After(sys, config, steps))
    ensures Coherent(sys) && NoForeignWriter(steps) ==> Coherent(After(sys, config, steps))
    decreases |steps|
  {
    if steps != [] {
      var a, now := steps[0].0, steps[0].1;
      NextKeeps(sys, config, a, now);
      var n := Next(sys, config, a, now);
      RunsKeep(n, config, steps[1..]);
      if NoForeignWriter(steps) {
        assert !a.Foreign?;
        forall k | 0 <= k < |steps[1..]|
          ensures !steps[1..][k].0.Foreign?
        {
          assert steps[1..][k] == steps[k + 1];
        }
      }
    }
  }

  /** The main result: after any interleaving whatever, a hit is the database's current record. */
  lemma HitIsCurrent(start: Sys, config: Config, steps: seq<(Action, int)>, h: Handle, id: Id, now: int)
    requires config.Valid() && Initial(start)
    requires Legal(start, config, steps) && NoForeignWriter(steps)
    requires var sys := After(start, config, steps);
      Known(sys.cache, h) && Answer(FaceOf(sys.cache, h), h, id, now).Some?
    ensures var sys := After(start, config, steps);
      Answer(FaceOf(sys.cache, h), h, id, now) == Lookup(sys.db, h.identity, id)
  {
    InitialHolds(start);
    RunsKeep(start, config, steps);
    var sys := After(start, config, steps);
    var k := IndexOf(sys.cache.entries, h.identity, id);
    assert sys.cache.entries[k] in sys.cache.entries;
  }

  /** What follows for a statement no barrier covers: after it, what the cache answers is stale exactly
      when the statement is on the store of the handle and leaves there another row, or none. */
  lemma ForeignMakesStale(start: Sys, config: Config, steps: seq<(Action, int)>, i: Identity, table: map<Id, Record>,
                          h: Handle, id: Id, now: int)
    requires config.Valid() && Initial(start)
    requires Legal(start, config, steps) && NoForeignWriter(steps)
    requires var sys := After(start, config, steps);
      Known(sys.cache, h) && Answer(FaceOf(sys.cache, h), h, id, now).Some?
    ensures var n := Next(After(start, config, steps), config, Foreign(i, table), now);
      var answer := Answer(FaceOf(n.cache, h), h, id, now);
      && answer.Some?
      && (answer != Lookup(n.db, h.identity, id) <==>
            h.identity == i && (id !in table || table[id] != answer.value))
  {
    HitIsCurrent(start, config, steps, h, id, now);
  }

  /** While any write, clear or drop of an id is in flight, no handle answers for it. */
  lemma NoHitBehindBarrier(start: Sys, config: Config, steps: seq<(Action, int)>, k: nat, h: Handle, id: Id, now: int)
    requires config.Valid() && Initial(start) && Legal(start, config, steps)
    requires var sys := After(start, config, steps);
      && k < |sys.ops| && Known(sys.cache, h) && h.identity == sys.ops[k].handle.identity
      && (sys.ops[k].Write? ==> id in sys.ops[k].ids)
    ensures var sys := After(start, config, steps);
      Answer(FaceOf(sys.cache, h), h, id, now).None?
  {
    InitialHolds(start);
    RunsKeep(start, config, steps);
    var sys := After(start, config, steps);
    BarrierUp(sys, k, id);
  }

  lemma StaysRetired(sys: Sys, config: Config, a: Action, now: int, h: Handle)
    requires Enabled(sys, a) && h in sys.cache.retired
    ensures h in Next(sys, config, a, now).cache.retired
  {
  }

  lemma {:induction false} RetiredForGood(sys: Sys, config: Config, steps: seq<(Action, int)>, h: Handle)
    requires Legal(sys, config, steps) && h in sys.cache.retired
    ensures h in After(sys, config, steps).cache.retired
    decreases |steps|
  {
    if steps != [] {
      var n := Next(sys, config, steps[0].0, steps[0].1);
      StaysRetired(sys, config, steps[0].0, steps[0].1, h);
      RetiredForGood(n, config, steps[1..], h);
    }
  }

  /** A retired handle never answers and never admits, for the rest of the run. */
  lemma RetiredNeverServes(sys: Sys, config: Config, steps: seq<(Action, int)>, h: Handle, id: Id, lease: Lease,
                           now: int)
    requires Legal(sys, config, steps) && h in sys.cache.retired
    requires h.identity in After(sys, config, steps).cache.rooms
    ensures var f := FaceOf(After(sys, config, steps).cache, h);
      Answer(f, h, id, now).None? && !Admits(f, id, lease)
  {
    RetiredForGood(sys, config, steps, h);
  }

  /** Handle generations over whole runs: two handles of one store that are both in service are
      the same object, and while a drop is in flight none is. */
  lemma OneGeneration(start: Sys, config: Config, steps: seq<(Action, int)>, g: Handle, h: Handle)
    requires config.Valid() && Initial(start) && Legal(start, config, steps)
    requires var s := After(start, config, steps).cache;
      g in s.handles && h in s.handles && g !in s.retired && h !in s.retired && g.identity == h.identity
    ensures g == h
    ensures forall k :: 0 <= k < |After(start, config, steps).ops| ==>
      var op := After(start, config, steps).ops[k];
      op.DropStore? ==> op.handle.identity != g.identity
  {
    InitialHolds(start);
    RunsKeep(start, config, steps);
    var sys := After(start, config, steps);
    forall k | 0 <= k < |sys.ops| && sys.ops[k].DropStore?
      ensures sys.ops[k].handle.identity != g.identity
    {
      BarrierUp(sys, k, "");
    }
  }
}
