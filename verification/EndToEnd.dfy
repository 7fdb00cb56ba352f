/**
 The stretches of the usage pipeline joined: what a sound transport does is a run of the recorder, and
 evidence of a loss that reached a sink is what a reader of the sink is shown.
 */
module EndToEnd {

  import opened UsageSpec
  import opened LossEvidence
  import opened RecorderRuns
  import opened RecorderClock
  import opened RecorderPlaces
  import opened Delivery

  // ---------------------------------------------------------------------------------------
  // From the recorder to the transport.
  // ---------------------------------------------------------------------------------------

  /** The steps of one attempt: what it stores, in any order, and how it ends. */
  function Steps(order: seq<nat>, outcome: Outcome): seq<Action> {
    if order == [] then [match outcome case Done => SendOk case Failed(possible) => SendFail(possible)]
    else [Store(order[0])] + Steps(order[1..], outcome)
  }

  /** Whatever an honest transport does with the batch in flight is a legal run of the recorder, so
      the theorems about all runs hold for recorders over such transports. */
  lemma {:induction false} HonestAttemptIsLegal(o: Options, clock: Clock, s: State, a: Attempt, order: seq<nat>)
    requires o.Valid() && !s.hung && !s.finished && s.inFlight > 0
    requires Honest(a) && (s.log.attemptStored ==> a.stored != {})
    requires forall x :: x in order ==> x in a.stored
    requires forall x :: x in a.stored ==> x in Serials(Batch(s))
    ensures Legal(o, clock, s, Steps(order, a.outcome))
    decreases |order|
  {
    if order == [] {
      var step := Steps(order, a.outcome);
      assert step[1..] == [];
      assert Enabled(s, step[0]);
      assert Legal(o, clock, Next(o, clock, s, step[0]), []);
    } else {
      var t := Stored(s, order[0]);
      assert order[0] in order;
      assert Steps(order, a.outcome)[1..] == Steps(order[1..], a.outcome);
      assert Batch(t) == Batch(s);
      HonestAttemptIsLegal(o, clock, t, a, order[1..]);
    }
  }

  // ---------------------------------------------------------------------------------------
  // From the sink to the reader.
  // ---------------------------------------------------------------------------------------

  /** The sink holds a record for each loss record's id, and all its loss records are the recorder's. */
  ghost predicate HoldsEvidence(records: seq<UsageRecord>, generated: seq<UsageRecord>) {
    && (forall k :: 0 <= k < |generated| ==> HasId(records, generated[k].id))
    && (forall r :: r in records && r.id.LostId? ==> r in generated)
  }

  lemma OneIdOnePlace(rs: seq<UsageRecord>, j: nat, k: nat)
    requires DistinctIds(rs) && j < |rs| && k < |rs| && rs[j].id == rs[k].id
    ensures j == k
  {
  }

  /** With ids that are used once, what is held under a loss record's id is that record. */
  lemma HeldIsEvidence(records: seq<UsageRecord>, generated: seq<UsageRecord>, k: nat)
    requires HoldsEvidence(records, generated) && DistinctIds(generated) && k < |generated| && generated[k].id.LostId?
    ensures generated[k] in records
    ensures forall r :: r in records && r.id == generated[k].id ==> r == generated[k]
  {
    forall r | r in records && r.id == generated[k].id
      ensures r == generated[k]
    {
      var j :| 0 <= j < |generated| && generated[j] == r;
      OneIdOnePlace(generated, j, k);
    }
    var i :| 0 <= i < |records| && records[i].id == generated[k].id;
    assert records[i] in records;
  }

  /** From a lost call to the reader: of a record given up on, either a counter still holds the
      loss, or every query that would have returned the record returns evidence that shows it, even
      though sink and reader keep one record per id. */
  lemma EvidenceReachesReader(o: Options, clock: Clock, regime: Regime, steps: seq<Action>, i: nat, q: Query,
                              records: seq<UsageRecord>)
    requires o.Valid() && Legal(o, clock, INITIAL, steps) && RegularRun(o, clock, regime, INITIAL, steps)
    requires var s := After(o, clock, INITIAL, steps);
      i < |s.log.givenUp| && Matches(s.log.givenUp[i].record, q) && HoldsEvidence(records, s.log.generated)
    ensures var s := After(o, clock, INITIAL, steps);
      regime.OneTimePerStep? || !s.hung ==>
        CountedBy(s.losses, s.log.givenUp[i]) ||
        exists e :: e in Selected(records, q) && Shows(e, s.log.givenUp[i])
  {
    hide Matches, Shows, CountedBy, Selected, HasId;
    var s := After(o, clock, INITIAL, steps);
    NoSilentGap(o, clock, steps, i, q);
    LossIdsUnique(o, clock, regime, steps);
    GeneratedAreLost(o, clock, regime, steps);
    if (regime.OneTimePerStep? || !s.hung) && !CountedBy(s.losses, s.log.givenUp[i]) {
      var k :| 0 <= k < |s.log.generated| && Shows(s.log.generated[k], s.log.givenUp[i]) &&
        Matches(s.log.generated[k], q);
      var e := s.log.generated[k];
      HeldIsEvidence(records, s.log.generated, k);
      SelectedAll(records, q, e);
      SelectedMatch(records, q);
      var out := Selected(records, q);
      var m :| 0 <= m < |out| && out[m].id == e.id;
      assert out[m] in out;
    }
  }

  lemma GeneratedAreLost(o: Options, clock: Clock, regime: Regime, steps: seq<Action>)
    requires o.Valid() && Legal(o, clock, INITIAL, steps) && RegularRun(o, clock, regime, INITIAL, steps)
    ensures var s := After(o, clock, INITIAL, steps);
      regime.OneTimePerStep? || !s.hung ==>
        forall k :: 0 <= k < |s.log.generated| ==> s.log.generated[k].id.LostId?
  {
    RunsLedger(o, clock, regime, INITIAL, steps);
  }

  // ---------------------------------------------------------------------------------------
  // Recorder, direct transport and memory sink as one system.
  // ---------------------------------------------------------------------------------------

  /** `batch` is the transport's copy of what is being sent, and `sent` how much of it was written. */
  datatype Pipe = Pipe(s: State, held: seq<UsageRecord>, acked: seq<UsageRecord>, batch: seq<Entry>, sent: nat)

  const EMPTY_PIPE := Pipe(INITIAL, [], [], [], 0)

  /** A step of the recorder, a chunk written, the end of the batch, or a chunk the sink refuses. */
  datatype Move = Own(a: Action) | Write(n: nat) | Acknowledge | Refuse(n: nat)

  function Records(es: seq<Entry>): (r: seq<UsageRecord>)
    ensures |r| == |es| && forall i :: 0 <= i < |es| ==> r[i] == es[i].record
  {
    seq(|es|, i requires 0 <= i < |es| => es[i].record)
  }

  /** A memory sink that may not evict has room for the records. */
  predicate Fits(limit: nat, held: seq<UsageRecord>, records: seq<UsageRecord>) {
    |held| + |Additions(held, records)| <= limit
  }

  predicate IsNextChunk(p: Pipe, n: nat) {
    p.s.inFlight > 0 && n > 0 && p.sent + n <= |p.batch|
  }

  predicate Possible(limit: nat, p: Pipe, m: Move) {
    && !p.s.hung
    && match m
       case Own(a) => Enabled(p.s, a) && (a.Record? || a.Flush? || a.SendBegin? || a.CloseBegin? || a.CloseFinish?)
       case Write(n) => IsNextChunk(p, n) && Fits(limit, p.held, Records(p.batch[p.sent..p.sent + n]))
       case Acknowledge => p.s.inFlight > 0 && p.sent == |p.batch|
       case Refuse(n) => IsNextChunk(p, n) && !Fits(limit, p.held, Records(p.batch[p.sent..p.sent + n]))
  }

  /** What a move is to the recorder. */
  function Actions(p: Pipe, m: Move): seq<Action>
    requires m.Write? ==> IsNextChunk(p, m.n)
  {
    match m
    case Own(a) => [a]
    case Write(n) => Stores(p.s.finished, p.batch[p.sent..p.sent + n])
    case Acknowledge => [SendOk]
    case Refuse(_) => [SendFail(p.sent > 0)]
  }

  function Stores(late: bool, es: seq<Entry>): seq<Action> {
    if es == [] then []
    else [if late then StoreLate(es[0].serial) else Store(es[0].serial)] + Stores(late, es[1..])
  }

  function StoredAll(s: State, es: seq<Entry>): State
    decreases |es|
  {
    if es == [] then s
    else StoredAll(if s.finished then StoredLate(s, es[0].serial) else Stored(s, es[0].serial), es[1..])
  }

  function Moved(o: Options, clock: Clock, limit: nat, p: Pipe, m: Move): Pipe
    requires o.Valid() && Possible(limit, p, m)
  {
    match m
    case Own(a) =>
      var t := Next(o, clock, p.s, a);
      if a.SendBegin? then p.(s := t, batch := Batch(t), sent := 0) else p.(s := t)
    case Write(n) =>
      var chunk := p.batch[p.sent..p.sent + n];
      p.(s := StoredAll(p.s, chunk), held := p.held + Additions(p.held, Records(chunk)), sent := p.sent + n)
    case Acknowledge =>
      p.(s := SendSucceeded(p.s), acked := if p.s.finished then p.acked else p.acked + Records(p.batch))
    case Refuse(_) => p.(s := SendFailed(o, clock, p.s, p.sent > 0))
  }

  predicate Plays(o: Options, clock: Clock, limit: nat, p: Pipe, moves: seq<Move>)
    requires o.Valid()
    decreases |moves|
  {
    moves == [] ||
    (Possible(limit, p, moves[0]) && Plays(o, clock, limit, Moved(o, clock, limit, p, moves[0]), moves[1..]))
  }

  function End(o: Options, clock: Clock, limit: nat, p: Pipe, moves: seq<Move>): Pipe
    requires o.Valid() && Plays(o, clock, limit, p, moves)
    decreases |moves|
  {
    if moves == [] then p else End(o, clock, limit, Moved(o, clock, limit, p, moves[0]), moves[1..])
  }

  /** The run of the recorder within a run of the whole. */
  function Trace(o: Options, clock: Clock, limit: nat, p: Pipe, moves: seq<Move>): seq<Action>
    requires o.Valid() && Plays(o, clock, limit, p, moves)
    decreases |moves|
  {
    if moves == [] then []
    else Actions(p, moves[0]) + Trace(o, clock, limit, Moved(o, clock, limit, p, moves[0]), moves[1..])
  }

  /** The copy being sent is the front of the queue, entry by entry, or what `close()` gave up on. */
  ghost predicate IsBatch(p: Pipe) {
    if p.s.finished then forall j :: 0 <= j < |p.batch| ==> p.batch[j].serial in p.s.log.doubtful
    else |p.batch| == p.s.inFlight <= |p.s.queue| &&
         forall j :: 0 <= j < |p.batch| ==> p.batch[j].serial == p.s.queue[j].serial
  }

  ghost predicate Sending(p: Pipe) {
    && IsBatch(p) && p.sent <= |p.batch|
    && (forall j :: 0 <= j < |p.batch| ==> Traced(p.batch[j].record, p.s.log.generated))
    && (forall j :: 0 <= j < p.sent ==> HasId(p.held, p.batch[j].record.id))
    && (p.s.log.attemptStored ==> p.sent > 0)
  }

  /** What was acknowledged is held, what is held as a loss record was made by the recorder, and the
      number delivered is the number acknowledged. */
  ghost predicate Sane(o: Options, p: Pipe) {
    && Inv(o, p.s) && p.s.delivered == |p.acked|
    && (forall r :: r in p.acked ==> HasId(p.held, r.id))
    && (forall r :: r in p.held ==> Traced(r, p.s.log.generated))
    && (p.s.inFlight > 0 ==> Sending(p))
  }

  lemma TracedMore(r: UsageRecord, a: seq<UsageRecord>, b: seq<UsageRecord>)
    requires Traced(r, a) && a <= b
    ensures Traced(r, b)
  {
  }

  /** A step that only adds to the queue and to the loss records. */
  lemma OnlyAdds(o: Options, p: Pipe, t: State)
    requires Sane(o, p) && Inv(o, t) && SameFlags(p.s, t) && p.s.queue <= t.queue
    ensures Sane(o, p.(s := t))
  {
    hide Inv, HasId;
    forall r | r in p.held
      ensures Traced(r, t.log.generated)
    {
      TracedMore(r, p.s.log.generated, t.log.generated);
    }
    if p.s.inFlight > 0 {
      assert forall j :: 0 <= j < |p.batch| ==> Traced(p.batch[j].record, t.log.generated);
    }
  }

  lemma OwnKeeps(o: Options, clock: Clock, limit: nat, p: Pipe, a: Action)
    requires o.Valid() && Sane(o, p) && Possible(limit, p, Own(a))
    ensures Sane(o, Moved(o, clock, limit, p, Own(a)))
  {
    hide Inv, Sending, Emitted, Recorded, SendBegun, CloseFinished, HasId;
    match a {
      case Record(input) =>
        RecordedKeeps(o, clock, p.s, input);
        OnlyAdds(o, p, Recorded(o, clock, p.s, input));
      case Flush(draining) => FlushKeeps(o, clock, p, draining);
      case CloseBegin =>
        StopsAccepting(o, p);
        FlushKeeps(o, clock, p.(s := p.s.(accepting := false)), true);
      case SendBegin(due) => SendBegunSane(o, clock, p, due);
      case CloseFinish => CloseFinishedSane(o, clock, p);
      case _ =>
    }
  }

  lemma FlushKeeps(o: Options, clock: Clock, p: Pipe, all: bool)
    requires o.Valid() && Sane(o, p) && !p.s.hung && (all ==> !p.s.accepting)
    ensures Sane(o, p.(s := Emitted(o, clock, p.s, all)))
  {
    NextKeeps(o, clock, p.s, Flush(all));
    EmittedKeeps(o, clock, p.s, all, 0, Exempt(p.s));
    hide Inv, Emitted, Ok, Grew;
    GrewFacts(p.s, Emitted(o, clock, p.s, all), {});
    OnlyAdds(o, p, Emitted(o, clock, p.s, all));
  }

  lemma StopsAccepting(o: Options, p: Pipe)
    requires Sane(o, p)
    ensures Sane(o, p.(s := p.s.(accepting := false)))
  {
    hide HasId, Sound, Books, SumOf, Traceable;
  }

  lemma SendBegunSane(o: Options, clock: Clock, p: Pipe, due: bool)
    requires o.Valid() && Sane(o, p) && !p.s.finished && p.s.inFlight == 0
    ensures var t := SendBegun(o, clock, p.s, due);
      Sane(o, p.(s := t, batch := Batch(t), sent := 0))
  {
    hide HasId, Sound, Books, SumOf, Expired;
    ExpiredKeeps(o, clock, p.s, 0, |p.s.queue|);
    SendBegunKeeps(o, clock, p.s, due);
    var t := SendBegun(o, clock, p.s, due);
    forall r | r in p.held
      ensures Traced(r, t.log.generated)
    {
      TracedMore(r, p.s.log.generated, t.log.generated);
    }
  }

  lemma CloseFinishedSane(o: Options, clock: Clock, p: Pipe)
    requires o.Valid() && Sane(o, p) && !p.s.accepting && !p.s.finished
    ensures Sane(o, p.(s := CloseFinished(o, clock, p.s)))
  {
    hide Inv, CloseFinished, HasId, Sending;
    CloseFinishedKeeps(o, clock, p.s);
    var t := CloseFinished(o, clock, p.s);
    if p.s.inFlight > 0 {
      CloseFinishedAttempt(o, clock, p, t);
    }
    forall r | r in p.held
      ensures Traced(r, t.log.generated)
    {
      TracedMore(r, p.s.log.generated, t.log.generated);
    }
  }

  /** The attempt in flight goes on after the recorder has given up on it. */
  lemma CloseFinishedAttempt(o: Options, clock: Clock, p: Pipe, t: State)
    requires o.Valid() && Sane(o, p) && !p.s.finished && p.s.inFlight > 0
    requires t == CloseFinished(o, clock, p.s) && Closes(p.s, t)
    ensures Sending(p.(s := t))
  {
    hide Inv, CloseFinished, HasId, Traced;
    forall j | 0 <= j < |p.batch|
      ensures p.batch[j].serial in t.log.doubtful
    {
      assert Batch(p.s)[j] == p.s.queue[j] && Batch(p.s)[j] in Batch(p.s);
    }
    forall j | 0 <= j < |p.batch|
      ensures Traced(p.batch[j].record, t.log.generated)
    {
      TracedMore(p.batch[j].record, p.s.log.generated, t.log.generated);
    }
  }

  // ----- one chunk -----

  predicate MayStore(s: State, es: seq<Entry>) {
    forall j :: 0 <= j < |es| ==>
      if s.finished then es[j].serial in s.log.doubtful
      else s.inFlight > 0 && es[j].serial in Serials(Batch(s))
  }

  /** Storing a chunk is a run of single stores; it changes nothing but what is stored. */
  lemma {:induction false} StoredAllKeeps(o: Options, clock: Clock, s: State, es: seq<Entry>)
    requires o.Valid() && Inv(o, s) && !s.hung && MayStore(s, es)
    ensures var t := StoredAll(s, es);
      && Legal(o, clock, s, Stores(s.finished, es)) && After(o, clock, s, Stores(s.finished, es)) == t
      && Inv(o, t)
      && t == s.(log := s.log.(stored := t.log.stored, attemptStored := t.log.attemptStored))
      && (t.log.attemptStored ==> s.log.attemptStored || es != [])
    decreases |es|
  {
    hide Inv;
    if es != [] {
      var n := if s.finished then StoredLate(s, es[0].serial) else Stored(s, es[0].serial);
      if s.finished { StoredLateKeeps(o, s, es[0].serial); } else { StoredKeeps(o, s, es[0].serial); }
      assert Batch(n) == Batch(s);
      assert MayStore(n, es[1..]) by {
        assert forall j :: 0 <= j < |es[1..]| ==> es[1..][j] == es[j + 1];
      }
      StoredAllKeeps(o, clock, n, es[1..]);
      var steps := Stores(s.finished, es);
      assert steps[1..] == Stores(n.finished, es[1..]);
    }
  }

  lemma WriteKeeps(o: Options, clock: Clock, limit: nat, p: Pipe, n: nat)
    requires o.Valid() && Sane(o, p) && Possible(limit, p, Write(n))
    ensures Sane(o, Moved(o, clock, limit, p, Write(n)))
    ensures Legal(o, clock, p.s, Actions(p, Write(n)))
    ensures After(o, clock, p.s, Actions(p, Write(n))) == Moved(o, clock, limit, p, Write(n)).s
  {
    hide Inv, HasId, Traced, Additions, StoredAll, Serials, Batch, Legal, After;
    var chunk := p.batch[p.sent..p.sent + n];
    ChunkMayBeStored(o, p, n);
    StoredAllKeeps(o, clock, p.s, chunk);
    ChunkIsHeld(p, n, p.s.log.generated);
  }

  lemma ChunkMayBeStored(o: Options, p: Pipe, n: nat)
    requires Sane(o, p) && IsNextChunk(p, n)
    ensures MayStore(p.s, p.batch[p.sent..p.sent + n])
  {
    hide Inv, HasId, Traced;
    var chunk := p.batch[p.sent..p.sent + n];
    forall j | 0 <= j < |chunk| && !p.s.finished
      ensures chunk[j].serial in Serials(Batch(p.s))
    {
      assert chunk[j] == p.batch[p.sent + j];
      assert Batch(p.s)[p.sent + j] == p.s.queue[p.sent + j] && Batch(p.s)[p.sent + j] in Batch(p.s);
    }
  }

  lemma ChunkIsHeld(p: Pipe, n: nat, generated: seq<UsageRecord>)
    requires IsNextChunk(p, n)
    requires forall j :: 0 <= j < |p.batch| ==> Traced(p.batch[j].record, generated)
    ensures var chunk := Records(p.batch[p.sent..p.sent + n]);
      var held := p.held + Additions(p.held, chunk);
      && (forall id :: HasId(p.held, id) ==> HasId(held, id))
      && (forall j :: p.sent <= j < p.sent + n ==> HasId(held, p.batch[j].record.id))
      && (forall r :: r in held ==> r in p.held || Traced(r, generated))
  {
    hide HasId, Additions, Traced;
    var chunk := Records(p.batch[p.sent..p.sent + n]);
    var added := Additions(p.held, chunk);
    HeldAfterwards(p.held, chunk);
    AdditionsAreFromBatch(p.held, chunk);
    forall id
      ensures HasId(p.held, id) ==> HasId(p.held + added, id)
    {
      HasIdConcat(p.held, added, id);
    }
    forall j | p.sent <= j < p.sent + n
      ensures HasId(p.held + added, p.batch[j].record.id)
    {
      assert chunk[j - p.sent] == p.batch[j].record;
    }
    forall r | r in added
      ensures Traced(r, generated)
    {
      var j :| 0 <= j < |chunk| && chunk[j] == r;
      assert chunk[j] == p.batch[p.sent + j].record;
    }
  }

  // ----- the end of an attempt -----

  lemma AcknowledgeKeeps(o: Options, clock: Clock, limit: nat, p: Pipe)
    requires o.Valid() && Sane(o, p) && Possible(limit, p, Acknowledge)
    ensures Sane(o, Moved(o, clock, limit, p, Acknowledge))
  {
    SendSucceededKeeps(o, p.s);
    hide Inv, HasId, Traced;
    forall r | r in Records(p.batch)
      ensures HasId(p.held, r.id)
    {
      var j :| 0 <= j < |Records(p.batch)| && Records(p.batch)[j] == r;
    }
  }

  lemma RefuseKeeps(o: Options, clock: Clock, limit: nat, p: Pipe, n: nat)
    requires o.Valid() && Sane(o, p) && Possible(limit, p, Refuse(n))
    ensures Sane(o, Moved(o, clock, limit, p, Refuse(n)))
  {
    hide Inv, HasId, SendFailed;
    SendFailedKeeps(o, clock, p.s, p.sent > 0);
    var t := SendFailed(o, clock, p.s, p.sent > 0);
    forall r | r in p.held
      ensures Traced(r, t.log.generated)
    {
      TracedMore(r, p.s.log.generated, t.log.generated);
    }
  }

  /** A move of the whole is a legal run of the recorder and keeps the whole sane. */
  lemma MoveKeeps(o: Options, clock: Clock, limit: nat, p: Pipe, m: Move)
    requires o.Valid() && Sane(o, p) && Possible(limit, p, m)
    ensures Sane(o, Moved(o, clock, limit, p, m))
    ensures Legal(o, clock, p.s, Actions(p, m))
    ensures After(o, clock, p.s, Actions(p, m)) == Moved(o, clock, limit, p, m).s
  {
    hide Sane, Legal, After, Moved, Actions;
    match m {
      case Write(n) => WriteKeeps(o, clock, limit, p, n);
      case Own(a) => OwnMove(o, clock, limit, p, a);
      case Acknowledge => AcknowledgeMove(o, clock, limit, p);
      case Refuse(n) => RefuseMove(o, clock, limit, p, n);
    }
  }

  lemma OwnMove(o: Options, clock: Clock, limit: nat, p: Pipe, a: Action)
    requires o.Valid() && Sane(o, p) && Possible(limit, p, Own(a))
    ensures Sane(o, Moved(o, clock, limit, p, Own(a)))
    ensures Legal(o, clock, p.s, Actions(p, Own(a)))
    ensures After(o, clock, p.s, Actions(p, Own(a))) == Moved(o, clock, limit, p, Own(a)).s
  {
    hide Sane, Legal, After, Next, Enabled;
    OwnKeeps(o, clock, limit, p, a);
    OneAction(o, clock, p.s, a);
  }

  lemma AcknowledgeMove(o: Options, clock: Clock, limit: nat, p: Pipe)
    requires o.Valid() && Sane(o, p) && Possible(limit, p, Acknowledge)
    ensures Sane(o, Moved(o, clock, limit, p, Acknowledge))
    ensures Legal(o, clock, p.s, Actions(p, Acknowledge))
    ensures After(o, clock, p.s, Actions(p, Acknowledge)) == Moved(o, clock, limit, p, Acknowledge).s
  {
    hide Sane, Legal, After, SendSucceeded;
    AcknowledgeKeeps(o, clock, limit, p);
    OneAction(o, clock, p.s, SendOk);
  }

  lemma RefuseMove(o: Options, clock: Clock, limit: nat, p: Pipe, n: nat)
    requires o.Valid() && Sane(o, p) && Possible(limit, p, Refuse(n))
    ensures Sane(o, Moved(o, clock, limit, p, Refuse(n)))
    ensures Legal(o, clock, p.s, Actions(p, Refuse(n)))
    ensures After(o, clock, p.s, Actions(p, Refuse(n))) == Moved(o, clock, limit, p, Refuse(n)).s
  {
    assert p.s.log.attemptStored ==> p.sent > 0;
    hide Sane, Legal, After, SendFailed;
    RefuseKeeps(o, clock, limit, p, n);
    OneAction(o, clock, p.s, SendFail(p.sent > 0));
  }

  lemma OneAction(o: Options, clock: Clock, s: State, a: Action)
    requires o.Valid() && Enabled(s, a)
    ensures Legal(o, clock, s, [a]) && After(o, clock, s, [a]) == Next(o, clock, s, a)
  {
    hide Next, Enabled;
    assert [a][1..] == [];
  }

  lemma {:induction false} LegalConcat(o: Options, clock: Clock, s: State, a: seq<Action>, b: seq<Action>)
    requires o.Valid() && Legal(o, clock, s, a) && Legal(o, clock, After(o, clock, s, a), b)
    ensures Legal(o, clock, s, a + b) && After(o, clock, s, a + b) == After(o, clock, After(o, clock, s, a), b)
    decreases |a|
  {
    hide Next, Enabled;
    if a == [] {
      assert a + b == b;
    } else {
      assert (a + b)[0] == a[0] && (a + b)[1..] == a[1..] + b;
      LegalConcat(o, clock, Next(o, clock, s, a[0]), a[1..], b);
    }
  }

  /** A run of the whole is a run of the recorder, and what it acknowledged is held. */
  lemma {:induction false} PlaysAreRuns(o: Options, clock: Clock, limit: nat, p: Pipe, moves: seq<Move>)
    requires o.Valid() && Sane(o, p) && Plays(o, clock, limit, p, moves)
    ensures var e := End(o, clock, limit, p, moves);
      && Sane(o, e)
      && Legal(o, clock, p.s, Trace(o, clock, limit, p, moves))
      && After(o, clock, p.s, Trace(o, clock, limit, p, moves)) == e.s
    decreases |moves|
  {
    hide Sane, Moved, Actions;
    if moves != [] {
      var n := Moved(o, clock, limit, p, moves[0]);
      MoveKeeps(o, clock, limit, p, moves[0]);
      PlaysAreRuns(o, clock, limit, n, moves[1..]);
      LegalConcat(o, clock, p.s, Actions(p, moves[0]), Trace(o, clock, limit, n, moves[1..]));
    }
  }

  lemma EmptyIsSane(o: Options)
    ensures Sane(o, EMPTY_PIPE)
  {
  }

  /** Each step of the run reads the clock by the regime. That the run is legal is no condition: it
      always is (`PlaysAreRuns`). */
  ghost predicate ReadsRegularly(o: Options, clock: Clock, regime: Regime, steps: seq<Action>)
    requires o.Valid()
  {
    Legal(o, clock, INITIAL, steps) ==> RegularRun(o, clock, regime, INITIAL, steps)
  }

  /** Recorder, direct transport, memory sink and reader together, with no premise about the sink: the
      number delivered is the number of records acknowledged, each of them is held, and a record given
      up on is in a counter or shown by a loss record that, once delivered, every query returns that
      would have returned the lost record. */
  lemma DeliveredEvidenceIsRead(o: Options, clock: Clock, regime: Regime, limit: nat, moves: seq<Move>, i: nat,
                                q: Query)
    requires o.Valid() && Plays(o, clock, limit, EMPTY_PIPE, moves)
    requires ReadsRegularly(o, clock, regime, Trace(o, clock, limit, EMPTY_PIPE, moves))
    ensures var p := End(o, clock, limit, EMPTY_PIPE, moves);
      && p.s.delivered == |p.acked|
      && (forall r :: r in p.acked ==> HasId(p.held, r.id))
      && (i < |p.s.log.givenUp| && Matches(p.s.log.givenUp[i].record, q) && (regime.OneTimePerStep? || !p.s.hung) ==>
            CountedBy(p.s.losses, p.s.log.givenUp[i]) || ReadOnceDelivered(p, p.s.log.givenUp[i], q))
  {
    EmptyIsSane(o);
    PlaysAreRuns(o, clock, limit, EMPTY_PIPE, moves);
    var p, steps := End(o, clock, limit, EMPTY_PIPE, moves), Trace(o, clock, limit, EMPTY_PIPE, moves);
    hide Matches, Shows, CountedBy, Selected, HasId, Inv, Plays, End, Trace, Legal, After;
    if i < |p.s.log.givenUp| && Matches(p.s.log.givenUp[i].record, q) && (regime.OneTimePerStep? || !p.s.hung) {
      NoSilentGap(o, clock, steps, i, q);
      LossIdsUnique(o, clock, regime, steps);
      GeneratedAreLost(o, clock, regime, steps);
      if !CountedBy(p.s.losses, p.s.log.givenUp[i]) {
        var k :| 0 <= k < |p.s.log.generated| && Shows(p.s.log.generated[k], p.s.log.givenUp[i]) &&
          Matches(p.s.log.generated[k], q);
        if p.s.log.generated[k] in p.acked {
          SelectedIfHeld(p.held, p.s.log.generated, k, q);
        }
      }
    }
  }

  /** A loss record shows the loss; if it was delivered, a reader of the sink is given it. */
  ghost predicate ReadOnceDelivered(p: Pipe, g: GivenUp, q: Query) {
    exists e :: e in p.s.log.generated && Shows(e, g) && (e in p.acked ==> e in Selected(p.held, q))
  }

  lemma SelectedIfHeld(held: seq<UsageRecord>, generated: seq<UsageRecord>, k: nat, q: Query)
    requires k < |generated| && HasId(held, generated[k].id) && Matches(generated[k], q)
    requires DistinctIds(generated) && generated[k].id.LostId?
    requires forall r :: r in held ==> Traced(r, generated)
    ensures generated[k] in Selected(held, q)
  {
    hide Matches, Selected;
    var e := generated[k];
    forall r | r in held && r.id == e.id
      ensures r == e
    {
      var j :| 0 <= j < |generated| && generated[j] == r;
      OneIdOnePlace(generated, j, k);
    }
    var h :| 0 <= h < |held| && held[h].id == e.id;
    assert held[h] in held;
    SelectedAll(held, q, e);
    SelectedMatch(held, q);
    var out := Selected(held, q);
    var m :| 0 <= m < |out| && out[m].id == e.id;
    assert out[m] in out;
  }

  // ---------------------------------------------------------------------------------------
  // When the sink takes everything.
  // ---------------------------------------------------------------------------------------

  /** The sink refuses nothing, the queue never reaches the limit and the reserve together, and `close()`
      ends when everything is sent. */
  predicate Flows(o: Options, clock: Clock, limit: nat, p: Pipe, moves: seq<Move>)
    requires o.Valid() && Plays(o, clock, limit, p, moves)
    decreases |moves|
  {
    moves == [] ||
    var n := Moved(o, clock, limit, p, moves[0]);
    && !moves[0].Refuse? && (moves[0] == Own(CloseFinish) ==> p.s.queue == [] && p.s.losses == [])
    && |n.s.queue| < o.Capacity() && Flows(o, clock, limit, n, moves[1..])
  }

  /** What the recorder takes for acknowledged is acknowledged: a batch holds the records of its entries. */
  ghost predicate Matched(p: Pipe) {
    && (p.s.inFlight > 0 ==>
          forall j :: 0 <= j < |p.batch| ==>
            p.batch[j].serial < |p.s.log.records| && p.batch[j].record == p.s.log.records[p.batch[j].serial])
    && (forall x :: x in p.s.log.fates && p.s.log.fates[x] == Acknowledged ==>
          x < |p.s.log.records| && p.s.log.records[x] in p.acked)
  }

  ghost predicate Flowing(o: Options, clock: Clock, p: Pipe) {
    Sane(o, p) && Placed(o, clock, p.s, {}) && NoneDropped(p.s) && Matched(p)
  }

  lemma OwnFlows(o: Options, clock: Clock, limit: nat, p: Pipe, a: Action)
    requires o.Valid() && Flowing(o, clock, p) && Possible(limit, p, Own(a))
    requires (a.CloseFinish? ==> p.s.queue == [] && p.s.losses == []) && |Next(o, clock, p.s, a).queue| < o.Capacity()
    ensures Flowing(o, clock, Moved(o, clock, limit, p, Own(a)))
  {
    OwnKeeps(o, clock, limit, p, a);
    assert !p.s.finished ==> p.s.inFlight <= |p.s.queue|;
    var t := Next(o, clock, p.s, a);
    hide Sane, Placed, NoneDropped, Next, Matched, OnlyOverflows;
    NextPlaces(o, clock, p.s, a);
    StepDrops(o, clock, p.s, a);
    if a.SendBegin? {
      BatchIsMade(o, clock, t);
      MatchedMore(p, p.(s := t, batch := Batch(t), sent := 0));
    } else {
      SameInFlight(o, clock, p.s, a);
      MatchedMore(p, p.(s := t));
    }
  }

  lemma SameInFlight(o: Options, clock: Clock, s: State, a: Action)
    requires o.Valid() && Inv(o, s) && Enabled(s, a) && (a.Record? || a.Flush? || a.CloseBegin? || a.CloseFinish?)
    ensures Next(o, clock, s, a).inFlight == s.inFlight
  {
    hide Inv, Emitted, Recorded, CloseFinished;
    match a {
      case Record(input) => RecordedKeeps(o, clock, s, input);
      case CloseFinish => CloseFinishedKeeps(o, clock, s);
      case Flush(draining) => EmittedFlags(o, clock, s, draining);
      case CloseBegin => EmittedFlags(o, clock, s.(accepting := false), true);
    }
  }

  /** Nothing is acknowledged between the two, and the batch is the same or carries its records. */
  lemma MatchedMore(p: Pipe, q: Pipe)
    requires Matched(p) && OnlyOverflows(p.s, q.s) && q.acked == p.acked
    requires q.s.inFlight > 0 ==>
      || (p.s.inFlight > 0 && q.batch == p.batch)
      || forall j :: 0 <= j < |q.batch| ==>
           q.batch[j].serial < |q.s.log.records| && q.batch[j].record == q.s.log.records[q.batch[j].serial]
    ensures Matched(q)
  {
    forall x | x in q.s.log.fates && q.s.log.fates[x] == Acknowledged
      ensures x < |q.s.log.records| && q.s.log.records[x] in q.acked
    {
      assert x in p.s.log.fates;
    }
  }

  /** What is in the queue carries the record it was made for. */
  lemma BatchIsMade(o: Options, clock: Clock, s: State)
    requires Placed(o, clock, s, {})
    ensures forall j :: 0 <= j < |Batch(s)| ==>
      Batch(s)[j].serial < |s.log.records| && Batch(s)[j].record == s.log.records[Batch(s)[j].serial]
  {
    assert forall j :: 0 <= j < |Batch(s)| ==> IsQueued(s, {}, s.queue[j]);
  }

  lemma {:induction false} StoredAllSame(s: State, es: seq<Entry>)
    ensures var t := StoredAll(s, es);
      && t.queue == s.queue && t.inFlight == s.inFlight && t.finished == s.finished
      && t.log == s.log.(stored := t.log.stored, attemptStored := t.log.attemptStored)
    decreases |es|
  {
    if es != [] {
      StoredAllSame(if s.finished then StoredLate(s, es[0].serial) else Stored(s, es[0].serial), es[1..]);
    }
  }

  lemma WriteFlows(o: Options, clock: Clock, limit: nat, p: Pipe, n: nat)
    requires o.Valid() && Flowing(o, clock, p) && Possible(limit, p, Write(n))
    ensures Flowing(o, clock, Moved(o, clock, limit, p, Write(n)))
  {
    hide Sane, Placed, NoneDropped, Matched, Moved, Possible;
    assert Sane(o, Moved(o, clock, limit, p, Write(n))) by {
      hide Legal, After, Actions;
      WriteKeeps(o, clock, limit, p, n);
    }
    WriteOnlyStores(o, clock, limit, p, n);
    StoringFlows(o, clock, p, Moved(o, clock, limit, p, Write(n)));
  }

  lemma WriteOnlyStores(o: Options, clock: Clock, limit: nat, p: Pipe, n: nat)
    requires o.Valid() && Possible(limit, p, Write(n))
    ensures var q := Moved(o, clock, limit, p, Write(n));
      && q.s.queue == p.s.queue && q.s.inFlight == p.s.inFlight && q.s.finished == p.s.finished
      && q.s.log == p.s.log.(stored := q.s.log.stored, attemptStored := q.s.log.attemptStored)
      && q.batch == p.batch && q.acked == p.acked
  {
    hide StoredAll, Additions, Records, Fits;
    StoredAllSame(p.s, p.batch[p.sent..p.sent + n]);
  }

  /** Storing changes nothing that is said of the entries. */
  lemma StoringFlows(o: Options, clock: Clock, p: Pipe, q: Pipe)
    requires Placed(o, clock, p.s, {}) && NoneDropped(p.s) && Matched(p)
    requires q.s.queue == p.s.queue && q.s.inFlight == p.s.inFlight && q.s.finished == p.s.finished
    requires q.s.log == p.s.log.(stored := q.s.log.stored, attemptStored := q.s.log.attemptStored)
    requires q.batch == p.batch && q.acked == p.acked
    ensures Placed(o, clock, q.s, {}) && NoneDropped(q.s) && Matched(q)
  {
    SamePlaces(o, clock, p.s, q.s, {});
  }

  lemma AcknowledgeFlows(o: Options, clock: Clock, limit: nat, p: Pipe)
    requires o.Valid() && Flowing(o, clock, p) && Possible(limit, p, Acknowledge)
    ensures Flowing(o, clock, Moved(o, clock, limit, p, Acknowledge))
  {
    AcknowledgeKeeps(o, clock, limit, p);
    SendSucceededPlaces(o, clock, p.s);
    SentNone(o, clock, p.s);
    if !p.s.finished {
      BatchIsAcknowledged(o, p);
    }
  }

  lemma BatchIsAcknowledged(o: Options, p: Pipe)
    requires Sane(o, p) && Matched(p) && p.s.inFlight > 0 && !p.s.finished
    ensures forall x :: x in Serials(Batch(p.s)) ==> x < |p.s.log.records| && p.s.log.records[x] in Records(p.batch)
  {
    forall x | x in Serials(Batch(p.s))
      ensures x < |p.s.log.records| && p.s.log.records[x] in Records(p.batch)
    {
      var j :| 0 <= j < |Batch(p.s)| && Batch(p.s)[j].serial == x;
      assert p.batch[j].serial == x;
      assert Records(p.batch)[j] == p.s.log.records[x];
    }
  }

  lemma {:induction false} PlaysFlow(o: Options, clock: Clock, limit: nat, p: Pipe, moves: seq<Move>)
    requires o.Valid() && Flowing(o, clock, p) && Plays(o, clock, limit, p, moves)
    requires Flows(o, clock, limit, p, moves)
    ensures Flowing(o, clock, End(o, clock, limit, p, moves))
    decreases |moves|
  {
    hide Flowing, Next;
    if moves != [] {
      match moves[0] {
        case Own(a) => OwnFlows(o, clock, limit, p, a);
        case Write(n) => WriteFlows(o, clock, limit, p, n);
        case Acknowledge => AcknowledgeFlows(o, clock, limit, p);
      }
      PlaysFlow(o, clock, limit, Moved(o, clock, limit, p, moves[0]), moves[1..]);
    }
  }

  /** From a lost call to its reader, with nothing left to chance: while the sink refuses nothing, the
      reserve never fills up and the queue has been sent, a call that was given up on is still counted,
      or every query that would have returned its record is given evidence that shows it. Once a
      pass over all counters has left none, it is the evidence. */
  lemma LostCallsAreShown(o: Options, clock: Clock, regime: Regime, limit: nat, moves: seq<Move>, i: nat, q: Query)
    requires o.Valid() && Plays(o, clock, limit, EMPTY_PIPE, moves) && Flows(o, clock, limit, EMPTY_PIPE, moves)
    requires ReadsRegularly(o, clock, regime, Trace(o, clock, limit, EMPTY_PIPE, moves))
    requires var s := End(o, clock, limit, EMPTY_PIPE, moves).s;
      && s.queue == [] && i < |s.log.givenUp| && Matches(s.log.givenUp[i].record, q)
      && (regime.OneTimePerStep? || !s.hung)
    ensures var p := End(o, clock, limit, EMPTY_PIPE, moves);
      || (p.s.losses != [] && CountedBy(p.s.losses, p.s.log.givenUp[i]))
      || exists e :: e in Selected(p.held, q) && Shows(e, p.s.log.givenUp[i])
  {
    hide Matches, Shows, Selected, HasId, Plays, End, Trace, Flows;
    var p := End(o, clock, limit, EMPTY_PIPE, moves);
    DeliveredEvidenceIsRead(o, clock, regime, limit, moves, i, q);
    EmptyIsSane(o);
    NothingMade(o, clock);
    PlaysFlow(o, clock, limit, EMPTY_PIPE, moves);
    if !CountedBy(p.s.losses, p.s.log.givenUp[i]) {
      var e :| e in p.s.log.generated && Shows(e, p.s.log.givenUp[i]) && (e in p.acked ==> e in Selected(p.held, q));
      GeneratedIsAcknowledged(o, clock, p, e);
    }
  }

  lemma GeneratedIsAcknowledged(o: Options, clock: Clock, p: Pipe, e: UsageRecord)
    requires Flowing(o, clock, p) && p.s.queue == [] && e in p.s.log.generated
    ensures e in p.acked
  {
    var x :| 0 <= x < |p.s.log.records| && p.s.log.records[x] == e;
    assert x in p.s.log.fates;
  }
}
