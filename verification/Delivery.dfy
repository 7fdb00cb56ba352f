/**
 Sinks and transports of usage records, and what their errors promise: an error that says "not
 possibly delivered" means that nothing of the batch was stored. The recorder relies on this when
 it calls a loss definite (`RecorderRuns.DefiniteLossIsSound`).
 */
module Delivery {

  import opened UsageSpec

  /** How a write or send ended. An error that is not a delivery error counts as possibly
      delivered. */
  datatype Outcome = Done | Failed(possible: bool)

  // ---------------------------------------------------------------------------------------
  // The memory sink.
  // ---------------------------------------------------------------------------------------

  function IndexOfId(rs: seq<UsageRecord>, id: RecordId): (k: nat)
    ensures k <= |rs|
    ensures k < |rs| ==> rs[k].id == id
    ensures forall j :: 0 <= j < k ==> rs[j].id != id
  {
    if rs == [] then 0 else if rs[0].id == id then 0 else 1 + IndexOfId(rs[1..], id)
  }

  /** `map.set(record.id, record)`: a key that is there keeps its place and takes the new value. */
  function Put(rs: seq<UsageRecord>, r: UsageRecord): seq<UsageRecord> {
    var k := IndexOfId(rs, r.id);
    if k < |rs| then rs[k := r] else rs + [r]
  }

  /** The records of a batch that the sink does not hold, one per id. */
  function Additions(held: seq<UsageRecord>, batch: seq<UsageRecord>): seq<UsageRecord> {
    if batch == [] then []
    else
      var before, last := Additions(held, batch[..|batch| - 1]), batch[|batch| - 1];
      if HasId(held, last.id) then before else Put(before, last)
  }

  lemma {:induction false} AdditionsAreNew(held: seq<UsageRecord>, batch: seq<UsageRecord>)
    ensures var a := Additions(held, batch);
      && DistinctIds(a)
      && (forall i :: 0 <= i < |a| ==> !HasId(held, a[i].id) && HasId(batch, a[i].id))
      && (forall i :: 0 <= i < |batch| ==> HasId(held, batch[i].id) || HasId(a, batch[i].id))
  {
    hide HasId, DistinctIds, Put;
    if batch == [] {
      NoneDistinct();
    } else {
      var prefix, last := batch[..|batch| - 1], batch[|batch| - 1];
      AdditionsAreNew(held, prefix);
      var before := Additions(held, prefix);
      PutIs(before, last);
      HasMore(prefix, last);
      assert prefix + [last] == batch;
    }
  }

  /** `r` is the last record of its id. */
  ghost predicate IsLatest(batch: seq<UsageRecord>, r: UsageRecord) {
    exists k :: 0 <= k < |batch| && batch[k] == r && forall j :: k < j < |batch| ==> batch[j].id != r.id
  }

  /** The ids come in the order in which the batch first has them. */
  ghost predicate FirstInOrder(a: seq<UsageRecord>, batch: seq<UsageRecord>) {
    forall i, j :: 0 <= i < j < |a| ==> IndexOfId(batch, a[i].id) < IndexOfId(batch, a[j].id)
  }

  /** Of several records of one id in a batch the last one is added, in the place of the first. */
  lemma {:induction false} AdditionsAreLatest(held: seq<UsageRecord>, batch: seq<UsageRecord>)
    ensures forall r :: r in Additions(held, batch) ==> IsLatest(batch, r)
    ensures FirstInOrder(Additions(held, batch), batch)
  {
    if batch != [] {
      var prefix, last := batch[..|batch| - 1], batch[|batch| - 1];
      AdditionsAreLatest(held, prefix);
      AdditionsAreNew(held, prefix);
      assert batch == prefix + [last];
      var before := Additions(held, prefix);
      if HasId(held, last.id) {
        forall r | r in before
          ensures IsLatest(batch, r)
        {
          var i :| 0 <= i < |before| && before[i] == r;
          StillLatest(prefix, last, r);
        }
        OrderStays(before, prefix, last);
      } else {
        forall r | r in Put(before, last)
          ensures IsLatest(batch, r)
        {
          LatestMore(before, prefix, last, r);
        }
        if IndexOfId(prefix, last.id) < |prefix| {
          assert prefix[IndexOfId(prefix, last.id)].id == last.id;
          assert HasId(before, last.id);
        }
        OrderMore(before, prefix, last);
      }
    }
  }

  lemma LatestMore(before: seq<UsageRecord>, prefix: seq<UsageRecord>, last: UsageRecord, r: UsageRecord)
    requires DistinctIds(before) && forall x :: x in before ==> IsLatest(prefix, x)
    requires r in Put(before, last)
    ensures IsLatest(prefix + [last], r)
  {
    hide IndexOfId, IsLatest;
    LastIsLatest(prefix, last);
    if r != last {
      var i :| 0 <= i < |Put(before, last)| && Put(before, last)[i] == r;
      assert before[i] in before;
      StillLatest(prefix, last, r);
    }
  }

  lemma OrderStays(before: seq<UsageRecord>, prefix: seq<UsageRecord>, last: UsageRecord)
    requires FirstInOrder(before, prefix) && forall r :: r in before ==> IsLatest(prefix, r)
    ensures forall i :: 0 <= i < |before| ==>
      IndexOfId(prefix + [last], before[i].id) == IndexOfId(prefix, before[i].id) < |prefix|
    ensures FirstInOrder(before, prefix + [last])
  {
    hide IndexOfId, IsLatest;
    forall i | 0 <= i < |before|
      ensures IndexOfId(prefix + [last], before[i].id) == IndexOfId(prefix, before[i].id) < |prefix|
    {
      assert before[i] in before;
      LatestIsThere(prefix, before[i]);
      FirstStays(prefix, last, before[i].id);
    }
  }

  lemma OrderMore(before: seq<UsageRecord>, prefix: seq<UsageRecord>, last: UsageRecord)
    requires FirstInOrder(before, prefix) && forall r :: r in before ==> IsLatest(prefix, r)
    requires IndexOfId(prefix, last.id) < |prefix| ==> IndexOfId(before, last.id) < |before|
    ensures FirstInOrder(Put(before, last), prefix + [last])
  {
    hide IndexOfId, IsLatest;
    var a, batch := Put(before, last), prefix + [last];
    OrderStays(before, prefix, last);
    FirstStays(prefix, last, last.id);
    assert forall i :: 0 <= i < |before| ==> a[i].id == before[i].id;
  }

  lemma LastIsLatest(prefix: seq<UsageRecord>, last: UsageRecord)
    ensures IsLatest(prefix + [last], last)
  {
    assert (prefix + [last])[|prefix|] == last;
  }

  lemma LatestIsThere(batch: seq<UsageRecord>, r: UsageRecord)
    requires IsLatest(batch, r)
    ensures IndexOfId(batch, r.id) < |batch|
  {
  }

  lemma StillLatest(prefix: seq<UsageRecord>, last: UsageRecord, r: UsageRecord)
    requires IsLatest(prefix, r) && r.id != last.id
    ensures IsLatest(prefix + [last], r)
  {
    var batch := prefix + [last];
    var p :| 0 <= p < |prefix| && prefix[p] == r && forall j :: p < j < |prefix| ==> prefix[j].id != r.id;
    assert batch[p] == r && forall j :: p < j < |prefix| ==> batch[j] == prefix[j];
  }

  lemma FirstStays(prefix: seq<UsageRecord>, last: UsageRecord, id: RecordId)
    ensures var k := IndexOfId(prefix, id);
      IndexOfId(prefix + [last], id) == if k < |prefix| then k else if last.id == id then k else k + 1
  {
    var batch := prefix + [last];
    var k, m := IndexOfId(prefix, id), IndexOfId(batch, id);
    assert batch[|prefix|] == last;
    if k < |prefix| {
      assert batch[k].id == id;
    }
    if m < |prefix| {
      assert prefix[m].id == id;
    }
  }

  lemma NoneDistinct()
    ensures DistinctIds([])
  {
  }

  lemma HasMore(rs: seq<UsageRecord>, r: UsageRecord)
    ensures forall id :: HasId(rs + [r], id) <==> HasId(rs, id) || id == r.id
  {
    forall id
      ensures HasId(rs + [r], id) <==> HasId(rs, id) || id == r.id
    {
      var n := rs + [r];
      assert n[|rs|] == r && forall i :: 0 <= i < |rs| ==> n[i] == rs[i];
      if HasId(rs, id) {
        var i :| 0 <= i < |rs| && rs[i].id == id;
        assert n[i].id == id;
      }
    }
  }

  /** Putting a record keeps ids distinct and adds only its own. */
  lemma PutIs(rs: seq<UsageRecord>, r: UsageRecord)
    ensures DistinctIds(rs) ==> DistinctIds(Put(rs, r))
    ensures forall id :: HasId(Put(rs, r), id) <==> HasId(rs, id) || id == r.id
    ensures forall i :: 0 <= i < |Put(rs, r)| ==> (i < |rs| && Put(rs, r)[i].id == rs[i].id) || Put(rs, r)[i].id == r.id
  {
    var k := IndexOfId(rs, r.id);
    var n := Put(rs, r);
    assert n[k] == r && forall i :: 0 <= i < |rs| ==> n[i].id == rs[i].id;
    forall id
      ensures HasId(n, id) <==> HasId(rs, id) || id == r.id
    {
      if HasId(rs, id) {
        var i :| 0 <= i < |rs| && rs[i].id == id;
        assert n[i].id == id;
      }
    }
  }

  /** The newest `limit` records. */
  function Newest(rs: seq<UsageRecord>, limit: nat): (r: seq<UsageRecord>)
    ensures |r| <= limit && |r| <= |rs| && r == rs[|rs| - |r|..]
    ensures |r| == limit || r == rs
  {
    if |rs| <= limit then rs else rs[|rs| - limit..]
  }

  class MemorySink {
    const limit: nat
    const evict: bool
    var records: seq<UsageRecord>

    ghost predicate Valid()
      reads this
    {
      limit > 0 && |records| <= limit && DistinctIds(records)
    }

    constructor (limit: nat, evict: bool)
      requires limit > 0
      ensures Valid() && records == [] && this.limit == limit && this.evict == evict
    {
      this.limit, this.evict, records := limit, evict, [];
    }

    /** All or nothing: a full sink that may not evict stores nothing and says so; otherwise every
        record of the batch is held, and what is evicted is the oldest. */
    method Write(batch: seq<UsageRecord>) returns (outcome: Outcome)
      requires Valid()
      modifies this`records
      ensures Valid()
      ensures var added := Additions(old(records), batch);
        if !evict && |old(records)| + |added| > limit
        then outcome == Failed(false) && records == old(records)
        else outcome == Done && records == Newest(old(records) + added, limit)
    {
      hide Additions, Newest, DistinctIds;
      var additions := New(batch);
      AdditionsAreNew(records, batch);
      if !evict && |records| + |additions| > limit {
        return Failed(false);
      }
      DistinctTogether(records, additions);
      NewestFits(records + additions, limit);
      Add(additions);
      return Done;
    }

    method New(batch: seq<UsageRecord>) returns (additions: seq<UsageRecord>)
      ensures additions == Additions(records, batch)
    {
      additions := [];
      assert batch[..0] == [];
      for i := 0 to |batch|
        invariant additions == Additions(records, batch[..i])
      {
        assert batch[..i + 1][..i] == batch[..i];
        if !HasId(records, batch[i].id) {
          additions := Put(additions, batch[i]);
        }
      }
      assert batch[..|batch|] == batch;
    }

    /** Adds records of new ids one by one, dropping the oldest while there are too many. */
    method Add(additions: seq<UsageRecord>)
      requires limit > 0 && |records| <= limit
      modifies this`records
      ensures records == Newest(old(records) + additions, limit)
    {
      hide Newest;
      assert old(records) + additions[..0] == old(records);
      NewestMore(records, limit);
      for i := 0 to |additions|
        invariant records == Newest(old(records) + additions[..i], limit)
      {
        assert old(records) + additions[..i + 1] == (old(records) + additions[..i]) + [additions[i]];
        NewestAppend(old(records) + additions[..i], additions[i], limit);
        records := records + [additions[i]];
        while |records| > limit
          invariant Newest(records, limit) == Newest(old(records) + additions[..i + 1], limit)
        {
          NewestMore(records, limit);
          records := records[1..];
        }
        NewestMore(records, limit);
      }
      assert additions[..|additions|] == additions;
    }
  }

  lemma NewestMore(rs: seq<UsageRecord>, limit: nat)
    ensures |rs| <= limit ==> Newest(rs, limit) == rs
    ensures |rs| > limit ==> Newest(rs[1..], limit) == Newest(rs, limit)
  {
  }

  lemma NewestAppend(rs: seq<UsageRecord>, r: UsageRecord, limit: nat)
    requires limit > 0
    ensures Newest(Newest(rs, limit) + [r], limit) == Newest(rs + [r], limit)
  {
    if |rs| > limit {
      assert (rs[|rs| - limit..] + [r])[1..] == (rs + [r])[|rs| + 1 - limit..];
    }
  }

  lemma NewestFits(rs: seq<UsageRecord>, limit: nat)
    requires DistinctIds(rs)
    ensures |Newest(rs, limit)| <= limit && DistinctIds(Newest(rs, limit))
  {
  }

  lemma DistinctTogether(held: seq<UsageRecord>, added: seq<UsageRecord>)
    requires DistinctIds(held) && DistinctIds(added)
    requires forall i :: 0 <= i < |added| ==> !HasId(held, added[i].id)
    ensures DistinctIds(held + added)
  {
  }

  /** A batch adds nothing if and only if the sink holds a record for each of its ids. */
  lemma {:induction false} RetryAddsNothing(held: seq<UsageRecord>, batch: seq<UsageRecord>)
    ensures Additions(held, batch) == [] <==> forall i :: 0 <= i < |batch| ==> HasId(held, batch[i].id)
  {
    hide HasId;
    if batch != [] {
      var prefix := batch[..|batch| - 1];
      RetryAddsNothing(held, prefix);
      assert forall i :: 0 <= i < |prefix| ==> prefix[i] == batch[i];
    }
  }

  /** After a write that evicted nothing, the same write again succeeds and changes nothing. */
  lemma RetryChangesNothing(held: seq<UsageRecord>, batch: seq<UsageRecord>, limit: nat)
    requires |held| + |Additions(held, batch)| <= limit
    ensures var once := Newest(held + Additions(held, batch), limit);
      Additions(once, batch) == [] && Newest(once + Additions(once, batch), limit) == once
  {
    var once := held + Additions(held, batch);
    HeldAfterwards(held, batch);
    RetryAddsNothing(once, batch);
    assert once + [] == once;
  }

  lemma HasIdConcat(a: seq<UsageRecord>, b: seq<UsageRecord>, id: RecordId)
    ensures HasId(a + b, id) <==> HasId(a, id) || HasId(b, id)
  {
    var c := a + b;
    if HasId(a, id) {
      var i :| 0 <= i < |a| && a[i].id == id;
      assert c[i].id == id;
    }
    if HasId(b, id) {
      var i :| 0 <= i < |b| && b[i].id == id;
      assert c[|a| + i].id == id;
    }
  }

  /** Everything of the batch is held once its additions are. */
  lemma HeldAfterwards(held: seq<UsageRecord>, batch: seq<UsageRecord>)
    ensures forall i :: 0 <= i < |batch| ==> HasId(held + Additions(held, batch), batch[i].id)
  {
    AdditionsAreNew(held, batch);
    forall i | 0 <= i < |batch|
      ensures HasId(held + Additions(held, batch), batch[i].id)
    {
      HasIdConcat(held, Additions(held, batch), batch[i].id);
    }
  }

  lemma {:induction false} AdditionsAreFromBatch(held: seq<UsageRecord>, batch: seq<UsageRecord>)
    ensures forall r :: r in Additions(held, batch) ==> r in batch
  {
    if batch != [] {
      var prefix, last := batch[..|batch| - 1], batch[|batch| - 1];
      AdditionsAreFromBatch(held, prefix);
      assert batch == prefix + [last];
      assert forall r :: r in Put(Additions(held, prefix), last) ==> r in Additions(held, prefix) || r == last;
    }
  }

  // ---------------------------------------------------------------------------------------
  // Combining sinks, and sending in chunks.
  // ---------------------------------------------------------------------------------------

  /** One write to one sink: how it ended and which entries of the batch it stored. */
  datatype Attempt = Attempt(outcome: Outcome, stored: set<nat>)

  predicate Honest(a: Attempt) {
    a.outcome == Failed(false) ==> a.stored == {}
  }

  /** `combineSinks`: every sink is written to, whatever the others do. */
  function Combined(results: seq<Outcome>): Outcome {
    if forall i :: 0 <= i < |results| ==> results[i] == Done then Done
    else Failed(exists i :: 0 <= i < |results| && (results[i] == Done || results[i] == Failed(true)))
  }

  ghost function AllStored(attempts: seq<Attempt>): set<nat> {
    set i, x | 0 <= i < |attempts| && x in attempts[i].stored :: x
  }

  function Outcomes(attempts: seq<Attempt>): (r: seq<Outcome>)
    ensures |r| == |attempts| && forall i :: 0 <= i < |r| ==> r[i] == attempts[i].outcome
  {
    seq(|attempts|, i requires 0 <= i < |attempts| => attempts[i].outcome)
  }

  /** Combined sinks are as honest as their parts: "not delivered" is said exactly when every sink
      says it, and success exactly when every sink succeeded. */
  lemma CombinedIsHonest(attempts: seq<Attempt>)
    requires forall i :: 0 <= i < |attempts| ==> Honest(attempts[i])
    ensures Honest(Attempt(Combined(Outcomes(attempts)), AllStored(attempts)))
    ensures Combined(Outcomes(attempts)) == Failed(false) <==>
      attempts != [] && forall i :: 0 <= i < |attempts| ==> attempts[i].outcome == Failed(false)
    ensures Combined(Outcomes(attempts)) == Done <==> forall i :: 0 <= i < |attempts| ==> attempts[i].outcome == Done
  {
    var os := Outcomes(attempts);
    if Combined(os) == Failed(false) {
      forall i | 0 <= i < |attempts|
        ensures attempts[i].outcome == Failed(false)
      {
        assert os[i] != Done && os[i] != Failed(true);
      }
    } else if attempts != [] {
      assert os[0] == attempts[0].outcome;
    }
  }

  /** What the n-th write of a sink does is up to the sink. */
  type SinkBehaviour = (nat, seq<nat>) -> Attempt

  ghost predicate HonestSink(sink: SinkBehaviour) {
    forall n: nat, chunk: seq<nat> :: Honest(sink(n, chunk)) && forall x :: x in sink(n, chunk).stored ==> x in chunk
  }

  /** What the first `chunks` writes stored. */
  ghost function StoredBy(sink: SinkBehaviour, batch: seq<nat>, size: nat, chunks: nat): set<nat> {
    if chunks == 0 then {}
    else StoredBy(sink, batch, size, chunks - 1) + sink(chunks - 1, Chunk(batch, chunks - 1, size)).stored
  }

  ghost predicate AllTaken(sink: SinkBehaviour, batch: seq<nat>, size: nat) {
    forall n: nat :: Covers(batch, n, size) ==> sink(n, Chunk(batch, n, size)).outcome == Done
  }

  /** `directTransport.send`: chunks in order until one fails; a failure after the first chunk is
      possibly delivered. `offered` is what the sink was given, `chunks` how many writes there were. */
  method SendDirect(batch: seq<nat>, batchSize: int, sink: SinkBehaviour)
    returns (outcome: Outcome, ghost stored: set<nat>, offered: seq<nat>, chunks: nat)
    requires HonestSink(sink)
    ensures stored == StoredBy(sink, batch, Size(batchSize), chunks)
    ensures Honest(Attempt(outcome, stored))
    ensures offered <= batch && forall x :: x in stored ==> x in offered
    ensures outcome == Done <==> AllTaken(sink, batch, Size(batchSize))
    ensures outcome == Done ==> offered == batch
    ensures outcome.Failed? ==>
      && chunks > 0
      && var last := sink(chunks - 1, Chunk(batch, chunks - 1, Size(batchSize))).outcome;
         last.Failed? && (outcome.possible <==> chunks > 1 || last.possible)
  {
    hide Chunk, Size;
    var size := Size(batchSize);
    var written := false;
    offered, chunks, stored := [], 0, {};
    var i := 0;
    while i < |batch|
      invariant offered == batch[..if i < |batch| then i else |batch|]
      invariant i == chunks * size
      invariant forall x :: x in stored ==> x in offered
      invariant stored == StoredBy(sink, batch, size, chunks)
      invariant written <==> chunks > 0
      invariant forall n: nat :: n < chunks ==> sink(n, Chunk(batch, n, size)).outcome == Done
      invariant !written ==> stored == {}
      decreases |batch| - i
    {
      var chunk := batch[i..if i + size < |batch| then i + size else |batch|];
      ChunkAt(batch, i, chunks, size);
      var attempt := sink(chunks, chunk);
      offered := offered + chunk;
      stored := stored + attempt.stored;
      chunks := chunks + 1;
      if attempt.outcome.Failed? {
        assert Covers(batch, chunks - 1, size);
        if !written {
          outcome := attempt.outcome;
        } else {
          outcome := Failed(true);
        }
        return;
      }
      written := true;
      i := i + size;
    }
    outcome := Done;
    assert offered == batch;
    CoveredBy(batch, chunks, size);
  }

  /** `directTransport.send` over a memory sink that may not evict: success means that a record is
      held for every id of the batch, "not delivered" that nothing changed, and nothing that was held
      is ever lost. */
  method SendToMemory(sink: MemorySink, batch: seq<UsageRecord>, batchSize: int) returns (outcome: Outcome)
    requires sink.Valid() && !sink.evict
    modifies sink`records
    ensures sink.Valid() && old(sink.records) <= sink.records
    ensures outcome == Done ==> forall i :: 0 <= i < |batch| ==> HasId(sink.records, batch[i].id)
    ensures outcome == Done <==> |old(sink.records)| + |Additions(old(sink.records), batch)| <= sink.limit
    ensures outcome == Failed(false) ==> sink.records == old(sink.records)
    ensures forall r :: r in sink.records ==> r in old(sink.records) || r in batch
  {
    hide HasId, Additions, DistinctIds, Newest;
    var size := Size(batchSize);
    var written := false;
    var i := 0;
    ghost var done := batch[..0];
    NothingDone(sink.records);
    while i < |batch|
      invariant sink.Valid() && old(sink.records) <= sink.records
      invariant forall k :: 0 <= k < i && k < |batch| ==> HasId(sink.records, batch[k].id)
      invariant forall r :: r in sink.records ==> r in old(sink.records) || r in batch
      invariant !written ==> sink.records == old(sink.records)
      invariant done == batch[..if i < |batch| then i else |batch|]
      invariant SinkHolds(sink.records, old(sink.records), done)
      decreases |batch| - i
    {
      var to := if i + size < |batch| then i + size else |batch|;
      ghost var before := sink.records;
      var result := sink.Write(batch[i..to]);
      assert batch == done + batch[i..to] + batch[to..] && batch[..to] == done + batch[i..to];
      if result.Failed? {
        DoesNotFit(before, old(sink.records), done, batch[i..to], batch[to..]);
        return if written then Failed(true) else result;
      }
      ChunkHeld(before, batch, i, to, sink.limit);
      HoldsMore(before, old(sink.records), done, batch[i..to]);
      done := batch[..to];
      written := true;
      i := i + size;
    }
    assert done == batch;
    outcome := Done;
  }

  /** The sink holds what it held and what a part of the batch added. */
  ghost predicate SinkHolds(now: seq<UsageRecord>, held: seq<UsageRecord>, done: seq<UsageRecord>) {
    && |now| == |held| + |Additions(held, done)|
    && forall id :: HasId(now, id) <==> HasId(held, id) || HasId(done, id)
  }

  lemma NothingDone(held: seq<UsageRecord>)
    ensures SinkHolds(held, held, [])
  {
    NothingAdded(held);
  }

  lemma HoldsMore(now: seq<UsageRecord>, held: seq<UsageRecord>, done: seq<UsageRecord>, chunk: seq<UsageRecord>)
    requires SinkHolds(now, held, done)
    ensures SinkHolds(now + Additions(now, chunk), held, done + chunk)
  {
    hide HasId, Additions;
    AddedInParts(held, done, chunk, now);
    AdditionsAreNew(now, chunk);
    var added := Additions(now, chunk);
    forall id
      ensures HasId(now + added, id) <==> HasId(held, id) || HasId(done + chunk, id)
    {
      HasIdConcat(now, added, id);
      HasIdConcat(done, chunk, id);
      AddedIds(now, chunk, id);
    }
  }

  lemma AddedIds(held: seq<UsageRecord>, batch: seq<UsageRecord>, id: RecordId)
    ensures HasId(held, id) || HasId(Additions(held, batch), id) <==> HasId(held, id) || HasId(batch, id)
  {
    hide Additions;
    AdditionsAreNew(held, batch);
  }

  /** A chunk for which there is no room leaves none for the whole batch. */
  lemma DoesNotFit(now: seq<UsageRecord>, held: seq<UsageRecord>, done: seq<UsageRecord>, chunk: seq<UsageRecord>,
                   rest: seq<UsageRecord>)
    requires SinkHolds(now, held, done)
    ensures |now| + |Additions(now, chunk)| <= |held| + |Additions(held, done + chunk + rest)|
  {
    hide HasId, Additions;
    HoldsMore(now, held, done, chunk);
    AddedInParts(held, done + chunk, rest, now + Additions(now, chunk));
  }

  /** Adding a batch in two parts adds as many records as adding it at once. */
  lemma {:induction false} AddedInParts(held: seq<UsageRecord>, a: seq<UsageRecord>, b: seq<UsageRecord>,
                                        mid: seq<UsageRecord>)
    requires forall id :: HasId(mid, id) <==> HasId(held, id) || HasId(a, id)
    ensures |Additions(held, a + b)| == |Additions(held, a)| + |Additions(mid, b)|
  {
    hide HasId, Additions;
    if b == [] {
      assert a + b == a;
      NothingAdded(mid);
    } else {
      var rest, last := b[..|b| - 1], b[|b| - 1];
      AddedInParts(held, a, rest, mid);
      assert a + b == (a + rest) + [last] && b == rest + [last];
      AddedNext(held, a + rest, last);
      AddedNext(mid, rest, last);
      HasIdConcat(a, rest, last.id);
    }
  }

  lemma NothingAdded(held: seq<UsageRecord>)
    ensures Additions(held, []) == []
  {
  }

  /** One more record counts when its id is new. */
  lemma AddedNext(held: seq<UsageRecord>, batch: seq<UsageRecord>, r: UsageRecord)
    ensures |Additions(held, batch + [r])| ==
      |Additions(held, batch)| + if HasId(held, r.id) || HasId(batch, r.id) then 0 else 1
  {
    var all, before := batch + [r], Additions(held, batch);
    assert all[..|all| - 1] == batch;
    AdditionsAreNew(held, batch);
    if HasId(batch, r.id) && !HasId(held, r.id) {
      var i :| 0 <= i < |batch| && batch[i].id == r.id;
      assert HasId(before, r.id);
    }
    if HasId(before, r.id) {
      var i :| 0 <= i < |before| && before[i].id == r.id;
      assert HasId(batch, r.id);
    }
  }

  lemma ChunkHeld(held: seq<UsageRecord>, batch: seq<UsageRecord>, i: nat, to: nat, limit: nat)
    requires i <= to <= |batch| && |held| + |Additions(held, batch[i..to])| <= limit
    ensures var r := Newest(held + Additions(held, batch[i..to]), limit);
      && held <= r
      && (forall id :: HasId(held, id) ==> HasId(r, id))
      && (forall k :: i <= k < to ==> HasId(r, batch[k].id))
      && (forall x :: x in r ==> x in held || x in batch)
  {
    hide HasId, Additions;
    var chunk := batch[i..to];
    var added := Additions(held, chunk);
    HeldAfterwards(held, chunk);
    AdditionsAreFromBatch(held, chunk);
    forall id
      ensures HasId(held, id) ==> HasId(held + added, id)
    {
      HasIdConcat(held, added, id);
    }
    forall k | i <= k < to
      ensures HasId(held + added, batch[k].id)
    {
      assert chunk[k - i] == batch[k];
    }
  }

  function Size(batchSize: int): (n: nat)
    ensures n >= 1 && n >= batchSize && (n == 1 || n == batchSize)
  {
    if batchSize > 1 then batchSize else 1
  }

  /** The n-th chunk. */
  function Chunk(batch: seq<nat>, n: nat, size: nat): seq<nat> {
    var from, to := n * size, n * size + size;
    if from >= |batch| then [] else batch[from..if to < |batch| then to else |batch|]
  }

  lemma ChunkAt(batch: seq<nat>, i: nat, n: nat, size: nat)
    requires i == n * size < |batch|
    ensures var to := if i + size < |batch| then i + size else |batch|;
      Chunk(batch, n, size) == batch[i..to] && batch[..i] + batch[i..to] == batch[..to]
  {
  }

  predicate Covers(batch: seq<nat>, n: nat, size: nat) {
    n * size < |batch|
  }

  lemma CoveredBy(batch: seq<nat>, chunks: nat, size: nat)
    requires !Covers(batch, chunks, size)
    ensures forall n: nat :: Covers(batch, n, size) ==> n < chunks
  {
    forall n: nat | Covers(batch, n, size)
      ensures n < chunks
    {
      ChunksMonotone(chunks, n, size);
    }
  }

  lemma ChunksMonotone(m: nat, n: nat, size: nat)
    ensures m <= n ==> m * size <= n * size
  {
    if m <= n {
      assert n * size == m * size + (n - m) * size;
    }
  }

  /** Each entry is in one chunk, at its place, and no chunk is larger than it may be. */
  lemma ChunksMakeBatch(batch: seq<nat>, size: nat, i: nat)
    requires size > 0 && i < |batch|
    ensures var c := Chunk(batch, i / size, size); i % size < |c| <= size && c[i % size] == batch[i]
    ensures Covers(batch, i / size, size)
  {
    assert i == (i / size) * size + i % size;
  }

  /** What a request to the collector can come to. */
  datatype Reply = Answer(ok: bool) | Threw(refused: bool)

  datatype Request = Request(reply: Reply, stored: set<nat>)

  type Network = (nat, seq<nat>) -> Request

  /** A refused connection carried nothing. */
  ghost predicate RefusalIsEmpty(net: Network) {
    forall n: nat, chunk: seq<nat> :: net(n, chunk).reply == Threw(true) ==> net(n, chunk).stored == {}
  }

  /** What the first `chunks` requests stored. */
  ghost function SentBy(net: Network, batch: seq<nat>, size: nat, chunks: nat): set<nat> {
    if chunks == 0 then {}
    else SentBy(net, batch, size, chunks - 1) + net(chunks - 1, Chunk(batch, chunks - 1, size)).stored
  }

  ghost predicate AllAnswered(net: Network, batch: seq<nat>, size: nat) {
    forall n: nat :: Covers(batch, n, size) ==> net(n, Chunk(batch, n, size)).reply == Answer(true)
  }

  /** `httpTransport.send`: only a refused connection before anything was sent is certainly not
      delivered; every other failure may be. */
  method SendHttp(batch: seq<nat>, batchSize: int, net: Network)
    returns (outcome: Outcome, ghost stored: set<nat>, chunks: nat)
    requires RefusalIsEmpty(net)
    ensures stored == SentBy(net, batch, Size(batchSize), chunks)
    ensures Honest(Attempt(outcome, stored))
    ensures outcome == Done <==> AllAnswered(net, batch, Size(batchSize))
    ensures outcome == Done ==> chunks * Size(batchSize) >= |batch|
    ensures outcome.Failed? ==>
      chunks > 0 && net(chunks - 1, Chunk(batch, chunks - 1, Size(batchSize))).reply != Answer(true)
    ensures outcome == Failed(false) <==>
      chunks == 1 && net(0, Chunk(batch, 0, Size(batchSize))).reply == Threw(true) && batch != []
  {
    hide Chunk, Size;
    var size := Size(batchSize);
    var sent := false;
    chunks, stored := 0, {};
    var i := 0;
    while i < |batch|
      invariant i == chunks * size
      invariant sent <==> chunks > 0
      invariant stored == SentBy(net, batch, size, chunks)
      invariant forall n: nat :: n < chunks ==> net(n, Chunk(batch, n, size)).reply == Answer(true)
      invariant !sent ==> stored == {}
      decreases |batch| - i
    {
      var chunk := batch[i..if i + size < |batch| then i + size else |batch|];
      ChunkAt(batch, i, chunks, size);
      var request := net(chunks, chunk);
      stored := stored + request.stored;
      chunks := chunks + 1;
      match request.reply {
        case Answer(ok) =>
          if !ok {
            assert Covers(batch, chunks - 1, size);
            return Failed(true), stored, chunks;
          }
        case Threw(refused) =>
          assert Covers(batch, chunks - 1, size);
          return Failed(sent || !refused), stored, chunks;
      }
      sent := true;
      i := i + size;
    }
    outcome := Done;
    CoveredBy(batch, chunks, size);
  }
}
