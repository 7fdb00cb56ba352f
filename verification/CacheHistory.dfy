/**
 What the record cache guarantees about time: how old a hit may be when the database also has
 foreign writers, and that eviction follows the order of last use.
 */
module CacheHistory {

  import opened Wrappers
  import opened RecordCaching
  import opened CacheCoherence

  // ---------------------------------------------------------------------------------------
  // Foreign writers: a hit is at most `ttlMs` old.
  // ---------------------------------------------------------------------------------------

  /** The database held this value for this id at some moment not before `since`. */
  ghost predicate WasCurrent(history: seq<Moment>, identity: Identity, id: Id, value: Option<Record>, since: int) {
    exists k :: 0 <= k < |history| && history[k].time >= since && Lookup(history[k].db, identity, id) == value
  }

  ghost predicate EntryRecent(sys: Sys, config: Config, e: Entry) {
    WasCurrent(sys.history, e.store.identity, e.id, Some(e.record), e.expires - config.ttlMs)
  }

  ghost predicate FetchRecent(sys: Sys, l: Lease) {
    l in sys.pending &&
    (sys.pending[l].fetched.Some? ==>
      WasCurrent(sys.history, sys.pending[l].handle.identity, sys.pending[l].id, sys.pending[l].fetched.value,
                 l.started))
  }

  ghost predicate Recent(sys: Sys, config: Config) {
    && sys.history != []
    && sys.history[|sys.history| - 1].db == sys.db
    && (forall e :: e in sys.cache.entries ==> EntryRecent(sys, config, e))
    && (forall l :: l in sys.pending ==> FetchRecent(sys, l) && l.started <= Now(sys))
  }

  lemma StaysRecent(history: seq<Moment>, m: Moment, identity: Identity, id: Id, value: Option<Record>, since: int)
    requires WasCurrent(history, identity, id, value, since)
    ensures WasCurrent(history + [m], identity, id, value, since)
  {
    var k :| 0 <= k < |history| && history[k].time >= since && Lookup(history[k].db, identity, id) == value;
    assert (history + [m])[k] == history[k];
  }

  /** Nothing but an admitted read adds an entry. */
  lemma NothingNew(sys: Sys, config: Config, a: Action, now: int)
    requires config.Valid() && Structure(sys) && Enabled(sys, a) && !a.EndRead?
    ensures forall e :: e in Core(sys, config, a, now).cache.entries ==> e in sys.cache.entries
  {
    hide Without, DistinctKeys, Counted, ReadsLive, EntriesLive;
    var s := sys.cache;
    match a {
      case Get(h, id) =>
        StructureIsDistinct(sys);
        GotKeepsDistinct(s.entries, h, id, now);
      case BeginWrite(h, ids) => BegunShrinks(s, Write(h, ids));
      case BeginClear(h) => BegunShrinks(s, Clear(h));
      case BeginDrop(i) =>
        OpenedKeeps(sys, i);
        BegunShrinks(Opened(s, i), DropStore(DropHandle(s, i)));
      case Settle(k) => SettledShrinks(sys, k);
      case DeleteStore(i) =>
        if i in s.stores { InvalidatedShrinks(FaceOf(s, s.stores[i]), i, None); }
      case _ =>
    }
  }

  lemma StructureIsDistinct(sys: Sys)
    requires Structure(sys)
    ensures DistinctKeys(sys.cache.entries)
  {
  }

  /** Whatever the step, an entry after it was there before, or is the record a read fetched. */
  lemma EntryOrigin(sys: Sys, config: Config, a: Action, now: int, e: Entry)
    requires config.Valid() && Structure(sys) && Enabled(sys, a)
    requires e in Core(sys, config, a, now).cache.entries && e !in sys.cache.entries
    ensures a.EndRead? && a.lease in sys.pending
    ensures var r := Admitted(sys.pending[a.lease], a.admit);
      && r.Some? && Admissible(config, r.value, a.lease.started, now)
      && e == NewEntry(config, sys.pending[a.lease].handle, sys.pending[a.lease].id, r.value, a.lease.started)
      && Touches(sys, config, a, now) == Some((e.store.identity, e.id))
  {
    hide Without, DistinctKeys, Counted, ReadsLive, EntriesLive, Generations;
    if a.EndRead? {
      var l, r := a.lease, sys.pending[a.lease];
      EndedEntries(sys.cache, config, r.handle, r.id, l, Admitted(r, a.admit), now);
    } else {
      hide Core, Structure;
      NothingNew(sys, config, a, now);
    }
  }

  lemma RecentStep(sys: Sys, config: Config, a: Action, now: int)
    requires config.Valid() && Structure(sys) && Recent(sys, config) && Enabled(sys, a) && Now(sys) <= now
    ensures Recent(Next(sys, config, a, now), config)
  {
    var n := Next(sys, config, a, now);
    var m := Moment(now, n.db);
    forall e | e in n.cache.entries
      ensures EntryRecent(n, config, e)
    {
      if e in sys.cache.entries {
        assert EntryRecent(sys, config, e);
        StaysRecent(sys.history, m, e.store.identity, e.id, Some(e.record), e.expires - config.ttlMs);
      } else {
        EntryOrigin(sys, config, a, now, e);
        var q := sys.pending[a.lease];
        assert FetchRecent(sys, a.lease);
        StaysRecent(sys.history, m, q.handle.identity, q.id, q.fetched.value, a.lease.started);
      }
    }
    forall l | l in n.pending
      ensures FetchRecent(n, l) && l.started <= now
    {
      FetchStays(sys, config, a, now, l);
    }
  }

  lemma FetchStays(sys: Sys, config: Config, a: Action, now: int, l: Lease)
    requires config.Valid() && Structure(sys) && Recent(sys, config) && Enabled(sys, a) && Now(sys) <= now
    requires l in Next(sys, config, a, now).pending
    ensures FetchRecent(Next(sys, config, a, now), l) && l.started <= now
  {
    hide Structure, EntryRecent, Opened, ReadBegun, ReadEnded, Begun, Settled, Retired, Answered, Through, Touches;
    var n := Next(sys, config, a, now);
    var m := Moment(now, n.db);
    assert l in sys.pending ==> FetchRecent(sys, l);
    var q := n.pending[l];
    if q.fetched.Some? {
      if a == Fetch(l) {
        assert (sys.history + [m])[|sys.history|] == m;
      } else {
        assert l in sys.pending && sys.pending[l] == q;
        StaysRecent(sys.history, m, q.handle.identity, q.id, q.fetched.value, l.started);
      }
    }
  }

  /** The clock does not go back from one step to the next, nor behind `from`. */
  ghost predicate NeverBack(from: int, steps: seq<(Action, int)>)
    decreases |steps|
  {
    steps == [] || (from <= steps[0].1 && NeverBack(steps[0].1, steps[1..]))
  }

  lemma {:induction false} RunsStayRecent(sys: Sys, config: Config, steps: seq<(Action, int)>)
    requires config.Valid() && Structure(sys) && Recent(sys, config) && Legal(sys, config, steps)
    requires NeverBack(Now(sys), steps)
    ensures Structure(After(sys, config, steps)) && Recent(After(sys, config, steps), config)
    decreases |steps|
  {
    if steps != [] {
      NextKeeps(sys, config, steps[0].0, steps[0].1);
      RecentStep(sys, config, steps[0].0, steps[0].1);
      RunsStayRecent(Next(sys, config, steps[0].0, steps[0].1), config, steps[1..]);
    }
  }

  /** Even with foreign writers at any point, and as long as the clock does not go back, a hit at time
      `now` was the database's value at some moment later than `now - ttlMs`. */
  lemma HitIsRecent(start: Sys, config: Config, steps: seq<(Action, int)>, h: Handle, id: Id, now: int)
    requires config.Valid() && Initial(start) && Legal(start, config, steps)
    requires NeverBack(Now(start), steps)
    requires var sys := After(start, config, steps);
      Known(sys.cache, h) && Answer(FaceOf(sys.cache, h), h, id, now).Some?
    ensures var sys := After(start, config, steps);
      WasCurrent(sys.history, h.identity, id, Answer(FaceOf(sys.cache, h), h, id, now), now - config.ttlMs + 1)
  {
    InitialHolds(start);
    RunsStayRecent(start, config, steps);
    var sys := After(start, config, steps);
    var e := sys.cache.entries[IndexOf(sys.cache.entries, h.identity, id)];
    assert e in sys.cache.entries && EntryRecent(sys, config, e);
    var k :| 0 <= k < |sys.history| && sys.history[k].time >= e.expires - config.ttlMs
             && Lookup(sys.history[k].db, h.identity, id) == Some(e.record);
    assert sys.history[k].time >= now - config.ttlMs + 1;
  }

  // ---------------------------------------------------------------------------------------
  // The list is kept in order of last use, so the entries evicted are the least recently used.
  // ---------------------------------------------------------------------------------------

  function KeyOf(e: Entry): (Identity, Id) {
    (e.store.identity, e.id)
  }

  ghost predicate Ordered(es: seq<Entry>, touched: map<(Identity, Id), nat>) {
    && (forall i :: 0 <= i < |es| ==> KeyOf(es[i]) in touched)
    && (forall i, j :: 0 <= i < j < |es| ==> touched[KeyOf(es[i])] < touched[KeyOf(es[j])])
  }

  ghost predicate Before(es: seq<Entry>, touched: map<(Identity, Id), nat>, tick: nat) {
    forall e :: e in es ==> KeyOf(e) in touched && touched[KeyOf(e)] < tick
  }

  lemma {:induction false} WithoutOrdered(es: seq<Entry>, identity: Identity, id: Option<Id>,
                                          touched: map<(Identity, Id), nat>)
    requires Ordered(es, touched)
    ensures Ordered(Without(es, identity, id), touched)
  {
    hide Selects, DistinctKeys, KeyOf;
    if es != [] {
      var rest := es[1..];
      WithoutOrdered(rest, identity, id, touched);
      WithoutKeeps(rest, identity, id);
      var kept := Without(rest, identity, id);
      forall j | 0 <= j < |kept|
        ensures touched[KeyOf(es[0])] < touched[KeyOf(kept[j])]
      {
        assert kept[j] in kept;
        var i :| 0 <= i < |rest| && rest[i] == kept[j];
        assert es[i + 1] == kept[j];
      }
    }
  }

  /** Putting a key used just now last keeps the order. */
  lemma TouchedLast(es: seq<Entry>, e: Entry, touched: map<(Identity, Id), nat>, tick: nat)
    requires Ordered(es, touched) && Before(es, touched, tick)
    requires forall x :: x in es ==> !SameKey(x, e)
    ensures Ordered(es + [e], touched[KeyOf(e) := tick])
    ensures Before(es + [e], touched[KeyOf(e) := tick], tick + 1)
  {
    forall i | 0 <= i < |es|
      ensures KeyOf(es[i]) != KeyOf(e)
    {
      assert es[i] in es && !SameKey(es[i], e);
    }
  }

  ghost predicate LruOrdered(sys: Sys) {
    Ordered(sys.cache.entries, sys.touched) && Before(sys.cache.entries, sys.touched, |sys.history|)
  }

  lemma GotOrdered(es: seq<Entry>, h: Handle, id: Id, now: int, touched: map<(Identity, Id), nat>, tick: nat)
    requires DistinctKeys(es) && Ordered(es, touched) && Before(es, touched, tick)
    ensures var t := if GotRecord(es, h, id, now).Some? then touched[(h.identity, id) := tick] else touched;
      Ordered(GotEntries(es, h, id, now), t) && Before(GotEntries(es, h, id, now), t, tick + 1)
  {
    WithoutOrdered(es, h.identity, Some(id), touched);
    WithoutKeeps(es, h.identity, Some(id));
    if GotRecord(es, h, id, now).Some? {
      var e := es[IndexOf(es, h.identity, id)];
      TouchedLast(Without(es, h.identity, Some(id)), e, touched, tick);
    }
  }

  lemma PutOrdered(es: seq<Entry>, config: Config, h: Handle, id: Id, record: Record, started: int, now: int,
                   touched: map<(Identity, Id), nat>, tick: nat)
    requires config.Valid() && DistinctKeys(es) && Ordered(es, touched) && Before(es, touched, tick)
    requires Admissible(config, record, started, now)
    ensures var t := touched[(h.identity, id) := tick];
      var r := PutEntries(es, config, h, id, record, started, now);
      Ordered(r, t) && Before(r, t, tick + 1)
  {
    WithoutOrdered(es, h.identity, Some(id), touched);
    WithoutKeeps(es, h.identity, Some(id));
    var kept, e := Without(es, h.identity, Some(id)), NewEntry(config, h, id, record, started);
    TouchedLast(kept, e, touched, tick);
    EvictionIsMinimal(kept + [e], config);
    assert forall x :: x in (kept + [e])[Victims(kept + [e], config)..] ==> x in kept + [e];
  }

  lemma {:induction false} WriteBegunOrdered(f: Face, identity: Identity, ids: seq<Id>,
                                             touched: map<(Identity, Id), nat>)
    requires Ordered(f.entries, touched)
    ensures Ordered(WriteBegun(f, identity, ids).entries, touched)
    ensures Ordered(WriteSettled(f, identity, ids).entries, touched)
    decreases |ids|
  {
    if ids != [] {
      WithoutOrdered(f.entries, identity, Some(ids[0]), touched);
      WriteBegunOrdered(OneWriteBegun(f, identity, ids[0]), identity, ids[1..], touched);
      WriteBegunOrdered(OneWriteSettled(f, identity, ids[0]), identity, ids[1..], touched);
    }
  }

  /** Every operation but a hit and an admission only takes entries out of the list. */
  lemma CoreOrdered(sys: Sys, config: Config, a: Action, now: int)
    requires config.Valid() && Structure(sys) && LruOrdered(sys) && Enabled(sys, a)
    requires Touches(sys, config, a, now).None?
    ensures Ordered(Core(sys, config, a, now).cache.entries, sys.touched)
  {
    var s, t := sys.cache, sys.touched;
    match a {
      case Get(h, id) => GotOrdered(s.entries, h, id, now, t, |sys.history|);
      case BeginWrite(h, ids) => WriteBegunOrdered(FaceOf(s, h), h.identity, ids, t);
      case BeginClear(h) => WithoutOrdered(s.entries, h.identity, None, t);
      case BeginDrop(i) => WithoutOrdered(s.entries, DropHandle(s, i).identity, None, t);
      case Settle(k) =>
        var op := sys.ops[k];
        WithoutOrdered(s.entries, op.handle.identity, None, t);
        if op.Write? { WriteBegunOrdered(FaceOf(s, op.handle), op.handle.identity, op.ids, t); }
      case DeleteStore(i) =>
        if i in s.stores { WithoutOrdered(s.entries, s.stores[i].identity, None, t); }
      case _ =>
    }
  }

  lemma OrderStep(sys: Sys, config: Config, a: Action, now: int)
    requires config.Valid() && Structure(sys) && LruOrdered(sys) && Enabled(sys, a)
    ensures LruOrdered(Next(sys, config, a, now))
  {
    var s, n := sys.cache, Next(sys, config, a, now);
    if Touches(sys, config, a, now).None? {
      CoreOrdered(sys, config, a, now);
      forall e | e in n.cache.entries
        ensures e in s.entries
      {
        if e !in s.entries { EntryOrigin(sys, config, a, now, e); }
      }
    } else if a.Get? {
      GotOrdered(s.entries, a.h, a.id, now, sys.touched, |sys.history|);
    } else {
      var q := sys.pending[a.lease];
      PutOrdered(s.entries, config, q.handle, q.id, Admitted(q, a.admit).value, a.lease.started, now,
                 sys.touched, |sys.history|);
    }
  }

  lemma {:induction false} RunsStayOrdered(sys: Sys, config: Config, steps: seq<(Action, int)>)
    requires config.Valid() && Structure(sys) && LruOrdered(sys) && Legal(sys, config, steps)
    ensures LruOrdered(After(sys, config, steps))
    decreases |steps|
  {
    if steps != [] {
      NextKeeps(sys, config, steps[0].0, steps[0].1);
      OrderStep(sys, config, steps[0].0, steps[0].1);
      RunsStayOrdered(Next(sys, config, steps[0].0, steps[0].1), config, steps[1..]);
    }
  }

  lemma SuffixMember(es: seq<Entry>, v: nat, i: nat)
    requires v <= |es| && i < |es|
    ensures v <= i ==> es[i] in es[v..]
  {
    if v <= i {
      assert es[v..][i - v] == es[i];
    }
  }

  /** After any run, an admission that must evict removes entries each last used before every
      entry that stays: if `gone` leaves by eviction and `kept` stays, `gone` was used earlier. */
  lemma EvictsLeastRecentlyUsed(start: Sys, config: Config, steps: seq<(Action, int)>,
                                h: Handle, id: Id, record: Record, started: int, now: int, gone: Entry, kept: Entry)
    requires config.Valid() && Initial(start) && Legal(start, config, steps)
    requires Admissible(config, record, started, now)
    requires var es := After(start, config, steps).cache.entries;
      var r := PutEntries(es, config, h, id, record, started, now);
      && gone in es && gone !in r && !Selects(gone, h.identity, Some(id))
      && kept in es && kept in r && !Selects(kept, h.identity, Some(id))
    ensures var sys := After(start, config, steps);
      && KeyOf(gone) in sys.touched && KeyOf(kept) in sys.touched
      && sys.touched[KeyOf(gone)] < sys.touched[KeyOf(kept)]
  {
    hide Structure, LruOrdered, Legal, After, Victims;
    InitialHolds(start);
    RunsKeep(start, config, steps);
    InitialOrdered(start);
    RunsStayOrdered(start, config, steps);
    VictimsUsedEarlier(After(start, config, steps), config, h, id, record, started, now, gone, kept);
  }

  lemma InitialOrdered(start: Sys)
    requires Initial(start)
    ensures LruOrdered(start)
  {
  }

  lemma VictimsUsedEarlier(sys: Sys, config: Config, h: Handle, id: Id, record: Record, started: int, now: int,
                           gone: Entry, kept: Entry)
    requires config.Valid() && Structure(sys) && LruOrdered(sys) && Admissible(config, record, started, now)
    requires var es := sys.cache.entries;
      var r := PutEntries(es, config, h, id, record, started, now);
      && gone in es && gone !in r && !Selects(gone, h.identity, Some(id))
      && kept in es && kept in r && !Selects(kept, h.identity, Some(id))
    ensures KeyOf(gone) in sys.touched && KeyOf(kept) in sys.touched
    ensures sys.touched[KeyOf(gone)] < sys.touched[KeyOf(kept)]
  {
    hide Generations, Counted, EntriesLive, ReadsLive;
    var es := sys.cache.entries;
    WithoutKeeps(es, h.identity, Some(id));
    WithoutOrdered(es, h.identity, Some(id), sys.touched);
    var rest := Without(es, h.identity, Some(id));
    var all := rest + [NewEntry(config, h, id, record, started)];
    EvictionIsMinimal(all, config);
    var v := Victims(all, config);
    var i :| 0 <= i < |rest| && rest[i] == gone;
    assert all[i] == gone;
    SuffixMember(all, v, i);
    var j :| 0 <= j < |all[v..]| && all[v..][j] == kept;
    assert all[v + j] == kept;
    assert v + j < |rest|;
  }
}
