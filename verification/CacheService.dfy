/** What the record cache does for its callers, beside never serving what is not current: a store that
    nobody drops is in service, a read that nobody disturbs is admitted, and what is admitted is served.
 */
module CacheService {

  import opened Wrappers
  import opened RecordCaching
  import opened CacheCoherence
  import opened CacheHistory

  // ---------------------------------------------------------------------------------------
  // When a handle is in service.
  // ---------------------------------------------------------------------------------------

  /** The operation refuses reads of this id. */
  predicate Concerns(op: Op, identity: Identity, id: Id) {
    op.handle.identity == identity && (op.Clear? || (op.Write? && id in op.ids))
  }

  ghost predicate Undisturbed(ops: seq<Op>, identity: Identity, id: Id) {
    forall k :: 0 <= k < |ops| ==> !Concerns(ops[k], identity, id)
  }

  ghost predicate BeingDropped(ops: seq<Op>, identity: Identity) {
    exists k :: 0 <= k < |ops| && ops[k].DropStore? && ops[k].handle.identity == identity
  }

  lemma {:induction false} HeldBySome(ops: seq<Op>, g: Gate)
    ensures InFlight(ops, g) > 0 <==> exists k :: 0 <= k < |ops| && Holds(ops[k], g) > 0
  {
    if ops != [] {
      HeldBySome(ops[1..], g);
      if Holds(ops[0], g) == 0 {
        assert forall k :: 0 <= k < |ops[1..]| ==> ops[1..][k] == ops[k + 1];
        if InFlight(ops, g) > 0 {
          var k :| 0 <= k < |ops[1..]| && Holds(ops[1..][k], g) > 0;
          assert Holds(ops[k + 1], g) > 0;
        }
        if k :| 0 <= k < |ops| && Holds(ops[k], g) > 0 {
          assert Holds(ops[1..][k - 1], g) > 0;
        }
      }
    }
  }

  /** A handle answers for an id and admits reads of it if and only if it is not retired and no write of
      the id and no clear of the store is in flight. */
  lemma OpenExactly(start: Sys, config: Config, steps: seq<(Action, int)>, h: Handle, id: Id)
    requires config.Valid() && Initial(start) && Legal(start, config, steps)
    requires Known(After(start, config, steps).cache, h)
    ensures var sys := After(start, config, steps);
      Open(FaceOf(sys.cache, h), id) <==> h !in sys.cache.retired && Undisturbed(sys.ops, h.identity, id)
  {
    InitialHolds(start);
    RunsKeep(start, config, steps);
    OpenIff(After(start, config, steps), h, id);
  }

  lemma OpenIff(sys: Sys, h: Handle, id: Id)
    requires Structure(sys) && Known(sys.cache, h)
    ensures Open(FaceOf(sys.cache, h), id) <==> h !in sys.cache.retired && Undisturbed(sys.ops, h.identity, id)
  {
    var one, all := OnId(h.identity, id), OnAll(h.identity);
    HeldBySome(sys.ops, one);
    HeldBySome(sys.ops, all);
    assert Level(sys.cache, one) == InFlight(sys.ops, one) && Level(sys.cache, all) == InFlight(sys.ops, all);
    forall k | 0 <= k < |sys.ops|
      ensures Concerns(sys.ops[k], h.identity, id) <==> Holds(sys.ops[k], one) > 0 || Holds(sys.ops[k], all) > 0
    {
    }
  }

  /** What is registered is in flight: a lease under the store and id that its read is for. Nothing is
      registered under an id without a read, and only what was made is retired. */
  ghost predicate Tidy(sys: Sys) {
    && (forall h :: h in sys.cache.retired ==> h.serial < sys.cache.made)
    && (forall i :: i in sys.cache.rooms ==> TidyRoom(i, sys.cache.rooms[i], sys.pending))
  }

  ghost predicate TidyRoom(i: Identity, room: Room, pending: map<Lease, ReadOp>) {
    forall k :: k in room.readers ==>
      && room.readers[k] != {}
      && forall l :: l in room.readers[k] ==> l in pending && pending[l].handle.identity == i && pending[l].id == k
  }

  lemma TidyThrough(sys: Sys, h: Handle, f: Face)
    requires Tidy(sys) && h.identity in sys.cache.rooms && h.serial < sys.cache.made
    requires TidyRoom(h.identity, f.room, sys.pending)
    ensures Tidy(sys.(cache := Through(sys.cache, h, f)))
  {
    hide TidyRoom;
  }

  lemma TidySame(i: Identity, room: Room, other: Room, pending: map<Lease, ReadOp>)
    requires TidyRoom(i, room, pending) && other.readers == room.readers
    ensures TidyRoom(i, other, pending)
  {
  }

  lemma TidyLater(sys: Sys, n: Sys)
    requires Tidy(sys) && n.cache.rooms == sys.cache.rooms && n.cache.retired == sys.cache.retired
    requires n.pending == sys.pending && sys.cache.made <= n.cache.made
    ensures Tidy(n)
  {
    hide TidyRoom;
  }

  lemma TidyOpened(sys: Sys, identity: Identity)
    requires Tidy(sys)
    ensures Tidy(sys.(cache := Opened(sys.cache, identity)))
  {
  }

  lemma TidyBegun(sys: Sys, op: Op)
    requires Tidy(sys) && Known(sys.cache, op.handle) && op.handle.serial < sys.cache.made
    ensures Tidy(sys.(cache := Begun(sys.cache, op)))
  {
    hide TidyRoom, Tidy, Begun, Through;
    var s := sys.cache;
    var f, r := FaceOf(s, op.handle), FaceOf(Begun(s, op), op.handle);
    BegunShrinks(s, op);
    TidyIn(sys, op.handle);
    TidySame(op.handle.identity, f.room, r.room, sys.pending);
    TidyThrough(sys, op.handle, r);
    TidyLater(sys.(cache := Through(s, op.handle, r)), sys.(cache := Begun(s, op)));
  }

  lemma TidyIn(sys: Sys, h: Handle)
    requires Tidy(sys) && h.identity in sys.cache.rooms
    ensures TidyRoom(h.identity, FaceOf(sys.cache, h).room, sys.pending)
  {
  }

  lemma TidySettled(sys: Sys, k: nat)
    requires Structure(sys) && Tidy(sys) && k < |sys.ops| && Enabled(sys, Settle(k))
    ensures Tidy(sys.(cache := Settled(sys.cache, sys.ops[k])))
  {
    var s, op := sys.cache, sys.ops[k];
    var f, r := FaceOf(s, op.handle), FaceOf(Settled(s, op), op.handle);
    SettledShrinks(sys, k);
    hide TidyRoom, Tidy, Settled, Through;
    TidyIn(sys, op.handle);
    TidySame(op.handle.identity, f.room, r.room, sys.pending);
    TidyThrough(sys, op.handle, r);
    TidyLater(sys.(cache := Through(s, op.handle, r)), sys.(cache := Settled(s, op)));
  }

  lemma TidyStep(sys: Sys, config: Config, a: Action, now: int)
    requires config.Valid() && Structure(sys) && Tidy(sys) && Enabled(sys, a)
    ensures Tidy(Core(sys, config, a, now))
  {
    hide TidyRoom, Begun, Settled, Tidy, Counted, EntriesLive, ReadsLive, DistinctKeys;
    var s := sys.cache;
    match a {
      case OpenStore(i) => TidyOpened(sys, i);
      case Get(h, id) =>
        TidyIn(sys, h);
        TidySame(h.identity, FaceOf(s, h).room, Answered(FaceOf(s, h), h, id, now).room, sys.pending);
        TidyThrough(sys, h, Answered(FaceOf(s, h), h, id, now));
      case BeginRead(h, id) => TidyReadBegun(sys, config, h, id, now);
      case Fetch(l) => TidyFetched(sys, config, l, now);
      case EndRead(l, admit) => TidyReadEnded(sys, config, l, admit, now);
      case BeginWrite(h, ids) =>
        TidyBegun(sys, Write(h, ids));
        TidyLater(sys.(cache := Begun(s, Write(h, ids))), Core(sys, config, a, now));
      case BeginClear(h) =>
        TidyBegun(sys, Clear(h));
        TidyLater(sys.(cache := Begun(s, Clear(h))), Core(sys, config, a, now));
      case BeginDrop(i) => TidyDropBegun(sys, config, i, now);
      case Settle(k) =>
        TidySettled(sys, k);
        TidyLater(sys.(cache := Settled(s, sys.ops[k])), Core(sys, config, a, now));
      case DeleteStore(i) =>
        if i in s.stores {
          var h := s.stores[i];
          TidyIn(sys, h);
          TidySame(h.identity, FaceOf(s, h).room, Retired(FaceOf(s, h), h.identity).room, sys.pending);
          TidyThrough(sys, h, Retired(FaceOf(s, h), h.identity));
        }
      case _ => TidyLater(sys, Core(sys, config, a, now));
    }
  }

  lemma TidyReadBegun(sys: Sys, config: Config, h: Handle, id: Id, now: int)
    requires Structure(sys) && Tidy(sys) && Known(sys.cache, h)
    ensures Tidy(Core(sys, config, BeginRead(h, id), now))
  {
    var s, n := sys.cache, Core(sys, config, BeginRead(h, id), now);
    var lease := Lease(s.made, now);
    if lease in sys.pending {
      NewLease(sys, lease);
    }
    hide Structure, TidyRoom;
    forall i | i in n.cache.rooms
      ensures TidyRoom(i, n.cache.rooms[i], n.pending)
    {
      assert TidyRoom(i, s.rooms[i], sys.pending);
      TidyAdds(i, s.rooms[i], h, id, lease, sys.pending, FaceOf(s, h));
    }
  }

  lemma TidyAdds(i: Identity, room: Room, h: Handle, id: Id, lease: Lease, pending: map<Lease, ReadOp>, f: Face)
    requires TidyRoom(i, room, pending) && lease !in pending
    ensures TidyRoom(i, room, pending[lease := ReadOp(h, id, None)])
    ensures i == h.identity && f.room == room ==>
      TidyRoom(i, ReadBegun(f, id, lease).room, pending[lease := ReadOp(h, id, None)])
  {
  }

  lemma TidyFetched(sys: Sys, config: Config, l: Lease, now: int)
    requires Tidy(sys) && Enabled(sys, Fetch(l))
    ensures Tidy(Core(sys, config, Fetch(l), now))
  {
    var n := Core(sys, config, Fetch(l), now);
    forall i | i in n.cache.rooms
      ensures TidyRoom(i, n.cache.rooms[i], n.pending)
    {
      assert TidyRoom(i, sys.cache.rooms[i], sys.pending);
    }
  }

  lemma TidyReadEnded(sys: Sys, config: Config, l: Lease, admit: bool, now: int)
    requires Structure(sys) && Tidy(sys) && Enabled(sys, EndRead(l, admit))
    ensures Tidy(Core(sys, config, EndRead(l, admit), now))
  {
    hide Structure, PutEntries, TidyRoom;
    var s, q, n := sys.cache, sys.pending[l], Core(sys, config, EndRead(l, admit), now);
    forall i | i in n.cache.rooms
      ensures TidyRoom(i, n.cache.rooms[i], n.pending)
    {
      assert TidyRoom(i, s.rooms[i], sys.pending);
      if i == q.handle.identity {
        TidyReleases(i, s.rooms[i], q.id, l, sys.pending);
      } else {
        TidyElsewhere(i, s.rooms[i], l, sys.pending);
      }
    }
  }

  lemma TidyElsewhere(i: Identity, room: Room, l: Lease, pending: map<Lease, ReadOp>)
    requires TidyRoom(i, room, pending) && l in pending && pending[l].handle.identity != i
    ensures TidyRoom(i, room, pending - {l})
  {
  }

  lemma TidyReleases(i: Identity, room: Room, id: Id, l: Lease, pending: map<Lease, ReadOp>)
    requires TidyRoom(i, room, pending) && l in pending && pending[l].id == id
    ensures TidyRoom(i, room.(readers := Released(room.readers, id, l)), pending - {l})
  {
  }

  lemma TidyDropBegun(sys: Sys, config: Config, i: Identity, now: int)
    requires Structure(sys) && Tidy(sys)
    ensures Tidy(Core(sys, config, BeginDrop(i), now))
  {
    hide Begun, Tidy;
    TidyOpened(sys, i);
    OpenedKeeps(sys, i);
    var found, op := sys.(cache := Opened(sys.cache, i)), DropStore(DropHandle(sys.cache, i));
    TidyBegun(found, op);
    TidyLater(found.(cache := Begun(found.cache, op)), Core(sys, config, BeginDrop(i), now));
  }

  lemma NextTidy(sys: Sys, config: Config, a: Action, now: int)
    requires config.Valid() && Structure(sys) && Tidy(sys) && Enabled(sys, a)
    ensures Tidy(Next(sys, config, a, now))
  {
    TidyStep(sys, config, a, now);
    hide Tidy, Core;
    TidyLater(Core(sys, config, a, now), Next(sys, config, a, now));
  }

  lemma {:induction false} RunsTidy(sys: Sys, config: Config, steps: seq<(Action, int)>)
    requires config.Valid() && Structure(sys) && Tidy(sys) && Legal(sys, config, steps)
    ensures Structure(After(sys, config, steps)) && Tidy(After(sys, config, steps))
    decreases |steps|
  {
    hide Structure, Tidy, Core;
    if steps != [] {
      NextTidy(sys, config, steps[0].0, steps[0].1);
      NextKeeps(sys, config, steps[0].0, steps[0].1);
      RunsTidy(Next(sys, config, steps[0].0, steps[0].1), config, steps[1..]);
    }
  }

  /** The handle that `store()` gives out is in service if and only if no drop of the store is in flight;
      so once the last drop is settled, and also after `deleteStore`, the next one serves again. */
  lemma StoreServes(start: Sys, config: Config, steps: seq<(Action, int)>, identity: Identity)
    requires config.Valid() && Initial(start) && Legal(start, config, steps)
    ensures var sys := After(start, config, steps);
      var s := Opened(sys.cache, identity);
      && s.stores[identity].identity == identity && Known(s, s.stores[identity])
      && (s.stores[identity] !in s.retired <==> !BeingDropped(sys.ops, identity))
  {
    InitialHolds(start);
    RunsTidy(start, config, steps);
    OpenedServes(After(start, config, steps), identity);
  }

  lemma OpenedServes(sys: Sys, identity: Identity)
    requires Structure(sys) && Tidy(sys)
    ensures var s := Opened(sys.cache, identity);
      && identity in s.stores && s.stores[identity].identity == identity && Known(s, s.stores[identity])
      && (s.stores[identity] !in s.retired <==> !BeingDropped(sys.ops, identity))
  {
    var s := sys.cache;
    DroppedIsCounted(sys, identity);
    OpenedKeeps(sys, identity);
    hide Counted, EntriesLive, ReadsLive;
    assert identity in s.deletions ==> identity in s.stores && s.stores[identity] in s.retired;
  }

  /** In any reachable state: `deleteStore` takes the handle of the store out of service, and `store()`
      then gives out another one, in service unless a drop is in flight. */
  lemma StoreReopened(start: Sys, config: Config, steps: seq<(Action, int)>, i: Identity, now: int, later: int)
    requires config.Valid() && Initial(start) && Legal(start, config, steps)
    ensures var sys := After(start, config, steps);
      && Enabled(sys, DeleteStore(i))
      && var deleted := Next(sys, config, DeleteStore(i), now);
         var again := Next(deleted, config, OpenStore(i), later);
         && (i in sys.cache.stores ==> sys.cache.stores[i] in deleted.cache.retired)
         && i in again.cache.stores
         && (again.cache.stores[i] !in again.cache.retired <==> !BeingDropped(sys.ops, i))
  {
    InitialHolds(start);
    RunsTidy(start, config, steps);
    var sys := After(start, config, steps);
    var deleted := Next(sys, config, DeleteStore(i), now);
    NextTidy(sys, config, DeleteStore(i), now);
    NextKeeps(sys, config, DeleteStore(i), now);
    OpenedServes(deleted, i);
  }

  /** A store is marked as being deleted exactly while a drop of it is in flight. */
  lemma DroppedIsCounted(sys: Sys, identity: Identity)
    requires Structure(sys)
    ensures identity in sys.cache.deletions <==> BeingDropped(sys.ops, identity)
  {
    var s, g := sys.cache, OnStore(identity);
    HeldBySome(sys.ops, g);
    if identity in s.rooms {
      assert Level(s, g) == InFlight(sys.ops, g);
    } else {
      forall k | 0 <= k < |sys.ops|
        ensures sys.ops[k].handle.identity != identity
      {
        assert Known(s, sys.ops[k].handle);
      }
    }
    if k :| 0 <= k < |sys.ops| && sys.ops[k].DropStore? && sys.ops[k].handle.identity == identity {
      assert Holds(sys.ops[k], g) > 0;
    }
  }

  // ---------------------------------------------------------------------------------------
  // A read that nobody disturbs is served from then on.
  // ---------------------------------------------------------------------------------------

  /** The step begins no write of the id and no clear or drop of the store, and does not end this read. */
  predicate LeavesAlone(a: Action, identity: Identity, id: Id, lease: Lease) {
    match a
    case BeginWrite(h, ids) => h.identity == identity ==> id !in ids
    case BeginClear(h) => h.identity != identity
    case BeginDrop(i) => i != identity
    case DeleteStore(i) => i != identity
    case EndRead(l, _) => l != lease
    case _ => true
  }

  /** A read in flight whose lease is valid. */
  ghost predicate Waits(sys: Sys, lease: Lease, h: Handle, id: Id) {
    && Structure(sys) && Tidy(sys)
    && lease in sys.pending && sys.pending[lease].handle == h && sys.pending[lease].id == id
    && h.identity in sys.cache.rooms && lease in sys.cache.rooms[h.identity].valid
  }

  /** No operation that purges the id is in flight. */
  lemma WaitsUndisturbed(sys: Sys, lease: Lease, h: Handle, id: Id)
    requires Waits(sys, lease, h, id)
    ensures Undisturbed(sys.ops, h.identity, id) && !BeingDropped(sys.ops, h.identity)
    ensures Known(sys.cache, h) && h !in sys.cache.retired && Open(FaceOf(sys.cache, h), id)
    ensures id in sys.cache.rooms[h.identity].readers && lease in sys.cache.rooms[h.identity].readers[id]
  {
    assert Reading(sys.cache, lease, sys.pending[lease]);
    OpenIff(sys, h, id);
    DroppedIsCounted(sys, h.identity);
  }

  /** Operations on other ids or other stores spare the lease. */
  lemma SparesLease(sys: Sys, op: Handle, f: Face, r: Face, ids: seq<Id>, lease: Lease, h: Handle, id: Id)
    requires Waits(sys, lease, h, id) && op.identity in sys.cache.rooms && f == FaceOf(sys.cache, op)
    requires op.identity == h.identity ==> id !in ids && Spares(f, r, op.identity, ids)
    ensures lease in Through(sys.cache, op, r).rooms[h.identity].valid
  {
    if op.identity == h.identity {
      assert TidyRoom(h.identity, sys.cache.rooms[h.identity], sys.pending);
    }
  }

  lemma WaitsBegun(sys: Sys, op: Op, lease: Lease, h: Handle, id: Id)
    requires Waits(sys, lease, h, id) && Known(sys.cache, op.handle)
    requires !Concerns(op, h.identity, id) && (op.DropStore? ==> op.handle.identity != h.identity)
    ensures h.identity in Begun(sys.cache, op).rooms && lease in Begun(sys.cache, op).rooms[h.identity].valid
  {
    WaitsUndisturbed(sys, lease, h, id);
    var s, f := sys.cache, FaceOf(sys.cache, op.handle);
    if op.Write? {
      WriteBegunEffect(f, op.handle.identity, op.ids);
      hide WriteBegun, Structure;
      SparesLease(sys, op.handle, f, WriteBegun(f, op.handle.identity, op.ids), op.ids, lease, h, id);
    }
  }

  lemma WaitsSettled(sys: Sys, k: nat, lease: Lease, h: Handle, id: Id)
    requires Waits(sys, lease, h, id) && Enabled(sys, Settle(k))
    ensures var t := Settled(sys.cache, sys.ops[k]);
      h.identity in t.rooms && lease in t.rooms[h.identity].valid
  {
    WaitsUndisturbed(sys, lease, h, id);
    var s, op := sys.cache, sys.ops[k];
    var f := FaceOf(s, op.handle);
    assert !Concerns(op, h.identity, id);
    if op.Write? {
      WriteCounted(sys, k);
      WriteSettledEffect(f, op.handle.identity, op.ids);
      hide WriteSettled, Structure;
      SparesLease(sys, op.handle, f, WriteSettled(f, op.handle.identity, op.ids), op.ids, lease, h, id);
    } else if op.DropStore? {
      assert op.handle.identity != h.identity;
    }
  }

  lemma WaitsOpened(sys: Sys, i: Identity, lease: Lease, h: Handle, id: Id)
    requires Waits(sys, lease, h, id)
    ensures Waits(sys.(cache := Opened(sys.cache, i)), lease, h, id)
  {
    OpenedKeeps(sys, i);
    TidyOpened(sys, i);
    hide Structure, Tidy;
  }

  lemma WaitsDropBegun(sys: Sys, i: Identity, lease: Lease, h: Handle, id: Id)
    requires Waits(sys, lease, h, id) && i != h.identity
    ensures var s, op := Opened(sys.cache, i), DropStore(DropHandle(sys.cache, i));
      && Known(s, op.handle) && h.identity in Begun(s, op).rooms && lease in Begun(s, op).rooms[h.identity].valid
  {
    WaitsOpened(sys, i, lease, h, id);
    OpenedKeeps(sys, i);
    DropIsOf(sys, i);
    hide Structure, Tidy, Opened, DropHandle, Begun, Waits, Known;
    WaitsBegun(sys.(cache := Opened(sys.cache, i)), DropStore(DropHandle(sys.cache, i)), lease, h, id);
  }

  lemma DropIsOf(sys: Sys, i: Identity)
    requires Structure(sys)
    ensures DropHandle(sys.cache, i).identity == i
  {
  }

  lemma WaitsStep(sys: Sys, config: Config, a: Action, now: int, lease: Lease, h: Handle, id: Id)
    requires config.Valid() && Waits(sys, lease, h, id) && Enabled(sys, a) && LeavesAlone(a, h.identity, id, lease)
    ensures Waits(Next(sys, config, a, now), lease, h, id)
    ensures var n := Next(sys, config, a, now);
      sys.pending[lease].fetched.Some? ==> n.pending[lease].fetched == sys.pending[lease].fetched
  {
    NextTidy(sys, config, a, now);
    NextKeeps(sys, config, a, now);
    WaitsValid(sys, config, a, now, lease, h, id);
    NewLease(sys, lease);
    hide Structure, Tidy;
    WaitsPending(sys, config, a, now, lease);
  }

  lemma WaitsPending(sys: Sys, config: Config, a: Action, now: int, lease: Lease)
    requires Enabled(sys, a) && lease in sys.pending && lease.serial < sys.cache.made
    requires a.EndRead? ==> a.lease != lease
    ensures var p, n := sys.pending[lease], Core(sys, config, a, now);
      && lease in n.pending && n.pending[lease].handle == p.handle && n.pending[lease].id == p.id
      && (p.fetched.Some? ==> n.pending[lease] == p)
  {
  }

  lemma NewLease(sys: Sys, lease: Lease)
    requires Structure(sys) && lease in sys.pending
    ensures lease.serial < sys.cache.made
  {
    assert Reading(sys.cache, lease, sys.pending[lease]);
  }

  lemma WaitsValid(sys: Sys, config: Config, a: Action, now: int, lease: Lease, h: Handle, id: Id)
    requires config.Valid() && Waits(sys, lease, h, id) && Enabled(sys, a) && LeavesAlone(a, h.identity, id, lease)
    ensures var s := Core(sys, config, a, now).cache;
      h.identity in s.rooms && lease in s.rooms[h.identity].valid
  {
    hide Begun, Settled, Tidy, Counted, EntriesLive, ReadsLive, DistinctKeys;
    var s := sys.cache;
    match a {
      case BeginWrite(g, ids) =>
        WaitsBegun(sys, Write(g, ids), lease, h, id);
      case BeginClear(g) =>
        WaitsBegun(sys, Clear(g), lease, h, id);
      case BeginDrop(i) =>
        WaitsDropBegun(sys, i, lease, h, id);
      case Settle(k) =>
        WaitsSettled(sys, k, lease, h, id);
      case DeleteStore(i) => assert i in s.stores ==> s.stores[i].identity == i;
      case _ =>
    }
  }

  lemma {:induction false} RunsWait(sys: Sys, config: Config, steps: seq<(Action, int)>, lease: Lease,
                                    h: Handle, id: Id)
    requires config.Valid() && Waits(sys, lease, h, id) && Legal(sys, config, steps)
    requires forall k :: 0 <= k < |steps| ==> LeavesAlone(steps[k].0, h.identity, id, lease)
    ensures Waits(After(sys, config, steps), lease, h, id)
    decreases |steps|
  {
    hide Waits, Next, LeavesAlone;
    if steps != [] {
      WaitsStep(sys, config, steps[0].0, steps[0].1, lease, h, id);
      assert forall k :: 0 <= k < |steps[1..]| ==> steps[1..][k] == steps[k + 1];
      RunsWait(Next(sys, config, steps[0].0, steps[0].1), config, steps[1..], lease, h, id);
    }
  }

  /** A read that begins through an open handle waits with a valid lease. */
  lemma ReadWaits(sys: Sys, config: Config, h: Handle, id: Id, now: int)
    requires config.Valid() && Structure(sys) && Tidy(sys) && Known(sys.cache, h) && Open(FaceOf(sys.cache, h), id)
    ensures Waits(Next(sys, config, BeginRead(h, id), now), Lease(sys.cache.made, now), h, id)
  {
    NextTidy(sys, config, BeginRead(h, id), now);
    NextKeeps(sys, config, BeginRead(h, id), now);
    hide Structure, Tidy;
  }

  /** A record the cache takes: it can be written as JSON and is not too large. */
  predicate Takes(config: Config, record: Record) {
    record.jsonBytes.Some? && record.jsonBytes.value <= config.maxBytes
  }

  lemma LastIsFound(es: seq<Entry>, identity: Identity, id: Id)
    requires DistinctKeys(es) && es != [] && Selects(es[|es| - 1], identity, Some(id))
    ensures IndexOf(es, identity, id) == |es| - 1
  {
    assert forall j :: 0 <= j < |es| - 1 ==> !SameKey(es[j], es[|es| - 1]);
  }

  /** What the end of a read that waits leaves for later lookups. */
  lemma ReadIsTaken(sys: Sys, config: Config, lease: Lease, h: Handle, id: Id, now: int, later: int)
    requires config.Valid() && Waits(sys, lease, h, id)
    requires sys.pending[lease].fetched.Some? && sys.pending[lease].fetched.value.Some?
    requires config.enabled && now - lease.started < config.ttlMs
    requires Takes(config, sys.pending[lease].fetched.value.value)
    requires later - lease.started < config.ttlMs
    ensures var n := Next(sys, config, EndRead(lease, true), now);
      && Enabled(sys, EndRead(lease, true)) && Known(n.cache, h)
      && Answer(FaceOf(n.cache, h), h, id, later) == Some(sys.pending[lease].fetched.value.value)
  {
    hide PutEntries, DistinctKeys, Structure, Tidy, Fits, Next, SumBytes;
    WaitsUndisturbed(sys, lease, h, id);
    var record, s := sys.pending[lease].fetched.value.value, sys.cache;
    WaitsAdmits(sys, lease, h, id);
    PutKeepsBounds(s.entries, config, h, id, record, lease.started, now);
    LastIsFound(PutEntries(s.entries, config, h, id, record, lease.started, now), h.identity, id);
    ReadLeaves(sys, config, lease, h, id, now);
  }

  lemma WaitsAdmits(sys: Sys, lease: Lease, h: Handle, id: Id)
    requires Waits(sys, lease, h, id)
    ensures Known(sys.cache, h) && DistinctKeys(sys.cache.entries) && Admits(FaceOf(sys.cache, h), id, lease)
  {
    WaitsUndisturbed(sys, lease, h, id);
  }

  /** The end of an admitted read puts its record in and changes neither the barriers nor the handle. */
  lemma ReadLeaves(sys: Sys, config: Config, lease: Lease, h: Handle, id: Id, now: int)
    requires lease in sys.pending && sys.pending[lease].handle == h && sys.pending[lease].id == id
    requires Known(sys.cache, h)
    requires sys.pending[lease].fetched.Some? && sys.pending[lease].fetched.value.Some?
    requires Admits(FaceOf(sys.cache, h), id, lease)
    ensures var n, record := Next(sys, config, EndRead(lease, true), now), sys.pending[lease].fetched.value.value;
      && Known(n.cache, h) && Open(FaceOf(n.cache, h), id)
      && n.cache.entries == PutEntries(sys.cache.entries, config, h, id, record, lease.started, now)
  {
    hide PutEntries;
  }

  /** The cache serves what it reads. In any reachable state let a read begin through a handle that is
      not retired, with no write of its id and no clear of its store in flight. Let it be ended after any
      steps of which none begins such an operation or drops the store. If the cache is enabled and takes
      the record, and the time to live has not passed, the record fetched is what `get` answers from
      then on through this handle, up to the time to live after the read began. */
  lemma {:induction false} ReadIsServed(start: Sys, config: Config, before: seq<(Action, int)>, h: Handle,
                                        id: Id, began: int, during: seq<(Action, int)>, ended: int, later: int)
    requires config.Valid() && config.enabled && Initial(start) && Legal(start, config, before)
    requires var sys := After(start, config, before);
      && Known(sys.cache, h) && h !in sys.cache.retired && Undisturbed(sys.ops, h.identity, id)
      && Legal(Next(sys, config, BeginRead(h, id), began), config, during)
    requires var lease := Lease(After(start, config, before).cache.made, began);
      forall k :: 0 <= k < |during| ==> LeavesAlone(during[k].0, h.identity, id, lease)
    requires ended - began < config.ttlMs && later - began < config.ttlMs
    ensures var sys := After(start, config, before);
      var lease := Lease(sys.cache.made, began);
      var read := After(Next(sys, config, BeginRead(h, id), began), config, during);
      && lease in read.pending
      && var fetched := read.pending[lease].fetched;
         fetched.Some? && fetched.value.Some? && Takes(config, fetched.value.value) ==>
           && Enabled(read, EndRead(lease, true))
           && var n := Next(read, config, EndRead(lease, true), ended);
              Known(n.cache, h) && Answer(FaceOf(n.cache, h), h, id, later) == fetched.value
  {
    InitialHolds(start);
    RunsTidy(start, config, before);
    var sys := After(start, config, before);
    var lease := Lease(sys.cache.made, began);
    OpenIff(sys, h, id);
    ReadWaits(sys, config, h, id, began);
    var begun := Next(sys, config, BeginRead(h, id), began);
    RunsWait(begun, config, during, lease, h, id);
    var read := After(begun, config, during);
    hide Structure, Tidy, Next, Legal, After;
    var fetched := read.pending[lease].fetched;
    if fetched.Some? && fetched.value.Some? && Takes(config, fetched.value.value) {
      ReadIsTaken(read, config, lease, h, id, ended, later);
    }
  }

  /** In particular, a read of a record of the database that nothing interrupts: begun, fetched and
      ended at once, it is answered by the next `get` through the same handle. */
  lemma UninterruptedReadIsServed(start: Sys, config: Config, before: seq<(Action, int)>, h: Handle, id: Id,
                                  now: int, later: int)
    requires config.Valid() && config.enabled && Initial(start) && Legal(start, config, before)
    requires var sys := After(start, config, before);
      && Known(sys.cache, h) && h !in sys.cache.retired && Undisturbed(sys.ops, h.identity, id)
      && h.identity in sys.db && id in sys.db[h.identity] && Takes(config, sys.db[h.identity][id])
    requires later - now < config.ttlMs
    ensures var sys := After(start, config, before);
      var lease := Lease(sys.cache.made, now);
      var begun := Next(sys, config, BeginRead(h, id), now);
      Enabled(begun, Fetch(lease)) &&
      var fetched := Next(begun, config, Fetch(lease), now);
      Enabled(fetched, EndRead(lease, true)) &&
      var ended := Next(fetched, config, EndRead(lease, true), now);
      Known(ended.cache, h) && Answer(FaceOf(ended.cache, h), h, id, later) == Some(sys.db[h.identity][id])
  {
    InitialHolds(start);
    RunsTidy(start, config, before);
    var sys := After(start, config, before);
    var lease := Lease(sys.cache.made, now);
    OpenIff(sys, h, id);
    ReadWaits(sys, config, h, id, now);
    var begun := Next(sys, config, BeginRead(h, id), now);
    JustBegun(sys, config, h, id, now);
    hide Structure, Tidy, Next, Waits, Legal, After;
    JustFetched(begun, config, lease, h, id, now);
    ReadIsTaken(Next(begun, config, Fetch(lease), now), config, lease, h, id, now, later);
  }

  lemma JustBegun(sys: Sys, config: Config, h: Handle, id: Id, now: int)
    requires Known(sys.cache, h)
    ensures var n := Next(sys, config, BeginRead(h, id), now);
      && n.db == sys.db && Lease(sys.cache.made, now) in n.pending
      && n.pending[Lease(sys.cache.made, now)] == ReadOp(h, id, None)
  {
  }

  lemma JustFetched(sys: Sys, config: Config, lease: Lease, h: Handle, id: Id, now: int)
    requires config.Valid() && Waits(sys, lease, h, id) && sys.pending[lease].fetched.None?
    ensures Enabled(sys, Fetch(lease))
    ensures var n := Next(sys, config, Fetch(lease), now);
      Waits(n, lease, h, id) && n.pending[lease].fetched == Some(Lookup(sys.db, h.identity, id))
  {
    WaitsStep(sys, config, Fetch(lease), now, lease, h, id);
    hide Structure, Tidy;
  }

  // ---------------------------------------------------------------------------------------
  // A cache that is switched off.
  // ---------------------------------------------------------------------------------------

  /** A cache that is switched off holds nothing in any reachable state, so it never answers. */
  lemma {:induction false} DisabledHoldsNothing(sys: Sys, config: Config, steps: seq<(Action, int)>)
    requires config.Valid() && !config.enabled && Structure(sys) && sys.cache.entries == [] && Legal(sys, config, steps)
    ensures After(sys, config, steps).cache.entries == []
    decreases |steps|
  {
    hide Structure, Core;
    if steps != [] {
      var a, now := steps[0].0, steps[0].1;
      var n := Next(sys, config, a, now);
      if n.cache.entries != [] {
        EntryOrigin(sys, config, a, now, n.cache.entries[0]);
      }
      NextKeeps(sys, config, a, now);
      DisabledHoldsNothing(n, config, steps[1..]);
    }
  }

  /** From the start on, whatever is tried: a cache that is switched off never answers. */
  lemma DisabledNeverAnswers(start: Sys, config: Config, steps: seq<(Action, int)>, h: Handle, id: Id, now: int)
    requires config.Valid() && !config.enabled && Initial(start) && Legal(start, config, steps)
    requires Known(After(start, config, steps).cache, h)
    ensures After(start, config, steps).cache.entries == []
    ensures Answer(FaceOf(After(start, config, steps).cache, h), h, id, now).None?
  {
    InitialHolds(start);
    DisabledHoldsNothing(start, config, steps);
  }

  // ---------------------------------------------------------------------------------------
  // Nothing is left behind.
  // ---------------------------------------------------------------------------------------

  /** When no operation and no read is in flight, the coordination of every store is empty again. */
  lemma NothingLeftBehind(start: Sys, config: Config, steps: seq<(Action, int)>, i: Identity)
    requires config.Valid() && Initial(start) && Legal(start, config, steps)
    requires var sys := After(start, config, steps); sys.ops == [] && sys.pending == map[]
    requires i in After(start, config, steps).cache.rooms
    ensures var s := After(start, config, steps).cache;
      && s.rooms[i].readers == map[] && s.rooms[i].writes == map[] && s.rooms[i].clearing == 0
      && s.deletions == map[]
  {
    InitialHolds(start);
    RunsTidy(start, config, steps);
    var sys := After(start, config, steps);
    assert TidyRoom(i, sys.cache.rooms[i], sys.pending);
    NoReaders(i, sys.cache.rooms[i]);
    NoBarriers(sys, i);
  }

  lemma NoReaders(i: Identity, room: Room)
    requires TidyRoom(i, room, map[])
    ensures room.readers == map[]
  {
    var none: map<Lease, ReadOp> := map[];
    assert forall k :: k in room.readers ==> room.readers[k] <= none.Keys;
  }

  lemma NoBarriers(sys: Sys, i: Identity)
    requires Structure(sys) && sys.ops == [] && i in sys.cache.rooms
    ensures sys.cache.rooms[i].writes == map[] && sys.cache.rooms[i].clearing == 0 && sys.cache.deletions == map[]
  {
    assert sys.cache.rooms[i].clearing == Level(sys.cache, OnAll(i)) == InFlight(sys.ops, OnAll(i));
    forall id
      ensures id !in sys.cache.rooms[i].writes
    {
      assert Level(sys.cache, OnId(i, id)) == InFlight(sys.ops, OnId(i, id));
    }
    forall d
      ensures d !in sys.cache.deletions
    {
      assert d in sys.cache.rooms ==> Level(sys.cache, OnStore(d)) == InFlight(sys.ops, OnStore(d));
    }
  }
}
