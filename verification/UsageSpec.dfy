/**
 The usage recorder as a state machine on values: a bounded queue with a single sender, retries
 that expire, and loss counters per session and time window.

 Every reading of the clock is explicit: `clock(n)` is the n-th value that `now()` returns, so a
 clock that moves between two readings of one call, or that goes backwards, is an ordinary input.
 */
module UsageSpec {

  import opened Wrappers

  const LOST_KIND := "x.usage.lost"

  datatype RecordId = Given(id: string) | LostId(session: string, start: int)

  datatype Evidence = Evidence(counts: map<string, nat>, affectedFrom: int, affectedTo: int)

  datatype UsageRecord = UsageRecord(
    id: RecordId, at: int, session: Option<string>, kind: string, evidence: Option<Evidence>)

  /** A queue entry; `serial` stands for object identity. */
  datatype Entry = Entry(serial: nat, record: UsageRecord, since: int, ambiguous: bool, attempts: nat)

  datatype Loss = Loss(session: string, start: int, from: int, to: int, counts: map<string, nat>)

  datatype Options = Options(queueLimit: nat, batchSize: nat, retryWindowMs: int, lossWindowMs: int,
                             reservedLossCapacity: int, maxLossCounters: nat)
  {
    predicate Valid() { queueLimit > 0 && batchSize > 0 && lossWindowMs > 0 && maxLossCounters > 0 }

    function Capacity(): nat { queueLimit + if reservedLossCapacity > 0 then reservedLossCapacity else 0 }

    /** The start of the window a time falls in. */
    function Window(t: int): int
      requires lossWindowMs > 0
    {
      (t / lossWindowMs) * lossWindowMs
    }
  }

  /** A record that was given up on, under the kind it is counted by. */
  datatype GivenUp = GivenUp(record: UsageRecord, kind: string)

  /** How an entry left the queue, or why it was never put in: the entry, how long the queue was then, and
      how often the clock had been read. */
  datatype Fate = Acknowledged | Dropped(reason: string, entry: Entry, queued: nat, tick: nat)

  /** History, for stating properties only. */
  datatype Log = Log(
    entries: nat,                  // entries made, the next serial
    calls: nat,                    // accepted record() calls
    generated: seq<UsageRecord>,   // loss records made by the recorder
    givenUp: seq<GivenUp>,         // records other than loss records that were given up on
    stored: set<nat>,              // entries some attempt stored in the sink
    definite: set<nat>,            // entries counted as definite losses
    doubtful: set<nat>,            // may still be stored: failed ambiguously, or in flight at close
    attemptStored: bool,           // the attempt in flight stored something
    records: seq<UsageRecord>,     // the record of every entry made, by serial
    fates: map<nat, Fate>)         // by serial

  datatype State = State(
    queue: seq<Entry>,
    inFlight: nat,                 // the batch being sent is the first `inFlight` entries
    losses: seq<Loss>,             // in the map's order; the key is (start, session)
    lost: map<string, nat>,
    delivered: nat,
    definiteLoss: nat,
    unconfirmed: nat,
    closedThrough: Option<int>,    // None is minus infinity
    accepting: bool,
    finished: bool,
    hung: bool,                    // the eviction loop was entered and never ends
    tick: nat,                     // how often the clock was read
    log: Log)

  const INITIAL := State([], 0, [], map[], 0, 0, 0, None, true, false, false, 0,
                         Log(0, 0, [], [], {}, {}, {}, false, [], map[]))

  ghost predicate DistinctIds(rs: seq<UsageRecord>) {
    forall i, j :: 0 <= i < j < |rs| ==> rs[i].id != rs[j].id
  }

  predicate HasId(rs: seq<UsageRecord>, id: RecordId) {
    exists i :: 0 <= i < |rs| && rs[i].id == id
  }

  type Clock = nat -> int

  function AtLeast(through: Option<int>, t: int): int {
    if through.Some? && through.value > t then through.value else t
  }

  function Min(a: int, b: int): int { if a < b then a else b }
  function Max(a: int, b: int): int { if a < b then b else a }

  function CountOf(m: map<string, nat>, k: string): nat {
    if k in m then m[k] else 0
  }

  function Bumped(m: map<string, nat>, k: string, n: nat): map<string, nat> {
    m[k := CountOf(m, k) + n]
  }

  function Merged(a: map<string, nat>, b: map<string, nat>): map<string, nat> {
    map k | k in a.Keys + b.Keys :: CountOf(a, k) + CountOf(b, k)
  }

  // ---------------------------------------------------------------------------------------
  // Loss counters.
  // ---------------------------------------------------------------------------------------

  /** The position of a counter, or `|ls|` when there is none. */
  function FindLoss(ls: seq<Loss>, start: int, session: string): (k: nat)
    ensures k <= |ls|
    ensures k < |ls| ==> ls[k].start == start && ls[k].session == session
    ensures forall j :: 0 <= j < k ==> ls[j].start != start || ls[j].session != session
  {
    if ls == [] then 0
    else if ls[0].start == start && ls[0].session == session then 0
    else 1 + FindLoss(ls[1..], start, session)
  }

  function Widened(l: Loss, at: int, kind: string): Loss {
    l.(from := Min(l.from, at), to := Max(l.to, at), counts := Bumped(l.counts, kind, 1))
  }

  function Counted(ls: seq<Loss>, start: int, session: string, at: int, kind: string): seq<Loss> {
    var k := FindLoss(ls, start, session);
    if k == |ls| then ls + [Widened(Loss(session, start, at, at, map[]), at, kind)]
    else ls[k := Widened(ls[k], at, kind)]
  }

  function Absorb(into: Loss, l: Loss): Loss {
    into.(from := Min(into.from, l.from), to := Max(into.to, l.to), counts := Merged(into.counts, l.counts))
  }

  /** One turn of the eviction loop: the oldest counter goes into its window's global counter. */
  function EvictOne(ls: seq<Loss>): seq<Loss>
    requires ls != []
  {
    var oldest, rest := ls[0], ls[1..];
    var k := FindLoss(rest, oldest.start, "");
    if k < |rest| then rest[k := Absorb(rest[k], oldest)]
    else rest + [oldest.(session := "")]
  }

  ghost predicate DistinctCounters(ls: seq<Loss>) {
    forall i, j :: 0 <= i < j < |ls| ==> ls[i].start != ls[j].start || ls[i].session != ls[j].session
  }

  function Starts(ls: seq<Loss>): set<int> {
    set l | l in ls :: l.start
  }

  function Scoped(ls: seq<Loss>): nat {
    if ls == [] then 0 else (if ls[0].session != "" then 1 else 0) + Scoped(ls[1..])
  }

  /** How many global counters stand before the first per-session one. */
  function Lead(ls: seq<Loss>): nat {
    if ls == [] || ls[0].session != "" then 0 else 1 + Lead(ls[1..])
  }

  lemma {:induction false} ScopedConcat(a: seq<Loss>, b: seq<Loss>)
    ensures Scoped(a + b) == Scoped(a) + Scoped(b)
  {
    if a == [] {
      assert a + b == b;
    } else {
      assert (a + b)[0] == a[0] && (a + b)[1..] == a[1..] + b;
      ScopedConcat(a[1..], b);
    }
  }

  lemma {:induction false} LeadConcat(a: seq<Loss>, b: seq<Loss>)
    requires Scoped(a) > 0
    ensures Lead(a + b) == Lead(a)
  {
    assert (a + b)[0] == a[0] && (a + b)[1..] == a[1..] + b;
    if a[0].session == "" {
      LeadConcat(a[1..], b);
    }
  }

  lemma {:induction false} ScopedUpdate(ls: seq<Loss>, k: nat, l: Loss)
    requires k < |ls| && l.session == ls[k].session
    ensures Scoped(ls[k := l]) == Scoped(ls)
  {
    assert ls == ls[..k] + ([ls[k]] + ls[k + 1..]);
    assert ls[k := l] == ls[..k] + ([l] + ls[k + 1..]);
    ScopedConcat(ls[..k], [ls[k]] + ls[k + 1..]);
    ScopedConcat(ls[..k], [l] + ls[k + 1..]);
    ScopedConcat([ls[k]], ls[k + 1..]);
    ScopedConcat([l], ls[k + 1..]);
    assert [l][1..] == [ls[k]][1..];
  }

  lemma {:induction false} LeadUpdate(ls: seq<Loss>, k: nat, l: Loss)
    requires k < |ls| && l.session == ls[k].session
    ensures Lead(ls[k := l]) == Lead(ls)
  {
    if k > 0 {
      assert ls[k := l][1..] == ls[1..][k - 1 := l];
      LeadUpdate(ls[1..], k - 1, l);
    } else {
      assert ls[k := l][1..] == ls[1..];
    }
  }

  /** If only global counters are left there is one per window. */
  lemma {:induction false} GlobalsAreWindows(ls: seq<Loss>)
    requires DistinctCounters(ls) && Scoped(ls) == 0
    ensures |Starts(ls)| == |ls|
  {
    if ls != [] {
      var rest := ls[1..];
      GlobalsAreWindows(rest);
      AllGlobal(ls);
      assert Starts(ls) == {ls[0].start} + Starts(rest) by { StartsCons(ls); }
      forall l | l in rest
        ensures l.start != ls[0].start
      {
        var k :| 0 <= k < |rest| && rest[k] == l;
        assert ls[k + 1] == l && ls[0].session == l.session;
      }
    }
  }

  lemma {:induction false} AllGlobal(ls: seq<Loss>)
    requires Scoped(ls) == 0
    ensures forall l :: l in ls ==> l.session == ""
  {
    if ls != [] {
      AllGlobal(ls[1..]);
      assert ls == [ls[0]] + ls[1..];
    }
  }

  lemma StartsCons(ls: seq<Loss>)
    requires ls != []
    ensures Starts(ls) == {ls[0].start} + Starts(ls[1..])
  {
    assert ls == [ls[0]] + ls[1..];
  }

  /** A turn of the loop keeps the windows and either uses up a per-session counter or brings the
      next one closer to the front. */
  lemma EvictOneProgress(ls: seq<Loss>)
    requires ls != []
    ensures DistinctCounters(ls) ==> DistinctCounters(EvictOne(ls))
    ensures Starts(EvictOne(ls)) == Starts(ls)
    ensures |EvictOne(ls)| <= |ls|
    ensures Scoped(EvictOne(ls)) <= Scoped(ls)
    ensures Scoped(ls) > 0 && Scoped(EvictOne(ls)) == Scoped(ls) ==> Lead(EvictOne(ls)) < Lead(ls)
  {
    EvictOneDistinct(ls);
    EvictOneStarts(ls);
    EvictOneCloser(ls);
  }

  lemma EvictOneDistinct(ls: seq<Loss>)
    requires ls != []
    ensures DistinctCounters(ls) ==> DistinctCounters(EvictOne(ls))
    ensures |EvictOne(ls)| <= |ls|
  {
    hide Absorb;
    var oldest, rest := ls[0], ls[1..];
    var k := FindLoss(rest, oldest.start, "");
    var r := EvictOne(ls);
    if k < |rest| {
      AbsorbKeepsKey(rest[k], oldest);
      assert forall j :: 0 <= j < |r| ==>
        r[j].start == rest[j].start && r[j].session == rest[j].session == ls[j + 1].session;
    } else {
      assert forall j :: 0 <= j < |rest| ==> r[j] == ls[j + 1];
    }
  }

  lemma AbsorbKeepsKey(into: Loss, l: Loss)
    ensures Absorb(into, l).start == into.start && Absorb(into, l).session == into.session
  {
  }

  lemma EvictOneCloser(ls: seq<Loss>)
    requires ls != []
    ensures Scoped(EvictOne(ls)) <= Scoped(ls)
    ensures Scoped(ls) > 0 && Scoped(EvictOne(ls)) == Scoped(ls) ==> Lead(EvictOne(ls)) < Lead(ls)
  {
    hide Absorb;
    var oldest, rest := ls[0], ls[1..];
    var k := FindLoss(rest, oldest.start, "");
    if k < |rest| {
      AbsorbKeepsKey(rest[k], oldest);
      ScopedUpdate(rest, k, Absorb(rest[k], oldest));
      LeadUpdate(rest, k, Absorb(rest[k], oldest));
    } else {
      var moved := oldest.(session := "");
      ScopedConcat(rest, [moved]);
      assert Scoped([moved]) == Scoped([moved][1..]) == 0;
      if oldest.session == "" && Scoped(rest) > 0 {
        LeadConcat(rest, [moved]);
      }
    }
  }

  lemma EvictOneStarts(ls: seq<Loss>)
    requires ls != []
    ensures Starts(EvictOne(ls)) == Starts(ls)
  {
    hide Absorb;
    var oldest, rest := ls[0], ls[1..];
    var k := FindLoss(rest, oldest.start, "");
    var r := EvictOne(ls);
    StartsCons(ls);
    if k < |rest| {
      AbsorbKeepsKey(rest[k], oldest);
      forall t
        ensures t in Starts(r) <==> t in Starts(ls)
      {
        StartsUpdate(rest, k, r[k], t);
        assert rest[k] in rest;
      }
    } else {
      var moved := oldest.(session := "");
      forall t
        ensures t in Starts(r) <==> t in Starts(ls)
      {
        if t in Starts(r) {
          var l :| l in r && l.start == t;
          assert l in rest || l == moved;
        }
        if t in Starts(rest) {
          var l :| l in rest && l.start == t;
          assert l in r;
        }
        assert r[|r| - 1] == moved && moved in r;
      }
    }
  }

  lemma StartsUpdate(ls: seq<Loss>, k: nat, l: Loss, t: int)
    requires k < |ls| && l.start == ls[k].start
    ensures t in Starts(ls[k := l]) <==> t in Starts(ls)
  {
    var r := ls[k := l];
    if t in Starts(r) {
      var x :| x in r && x.start == t;
      var j :| 0 <= j < |r| && r[j] == x;
      assert ls[j] in ls && ls[j].start == t;
    }
    if t in Starts(ls) {
      var x :| x in ls && x.start == t;
      var j :| 0 <= j < |ls| && ls[j] == x;
      assert r[j] in r && r[j].start == t;
    }
  }

  /** The counters when the eviction loop ends. When there are more windows than `max` it never
      does (see `LossEvidence.EvictionEnds`), and this is the list it started from. */
  function Evicted(ls: seq<Loss>, max: nat): seq<Loss>
    decreases Scoped(ls), Lead(ls)
  {
    if |ls| <= max || |Starts(ls)| > max || Scoped(ls) == 0 then ls
    else
      EvictOneProgress(ls);
      Evicted(EvictOne(ls), max)
  }

  // ---------------------------------------------------------------------------------------
  // Giving up on an entry, and turning counters into loss records.
  // ---------------------------------------------------------------------------------------

  function Forfeited(s: State, e: Entry, reason: string): (r: State)
    ensures r.hung == s.hung && r.losses == s.losses && r.tick == s.tick
  {
    s.(lost := Bumped(s.lost, reason, 1),
       unconfirmed := s.unconfirmed + (if e.ambiguous then 1 else 0),
       definiteLoss := s.definiteLoss + (if e.ambiguous then 0 else 1),
       log := s.log.(definite := if e.ambiguous then s.log.definite else s.log.definite + {e.serial},
                     fates := s.log.fates[e.serial := Dropped(reason, e, |s.queue|, s.tick)]))
  }

  function LossRecord(l: Loss, at: int): UsageRecord {
    UsageRecord(LostId(l.session, l.start), at, Some(l.session), LOST_KIND, Some(Evidence(l.counts, l.from, l.to)))
  }

  /** One more entry is made. */
  function Made(log: Log, record: UsageRecord): Log {
    log.(entries := log.entries + 1, records := log.records + [record])
  }

  /** The i-th counter becomes a record; two readings of the clock give `at` and `since`. */
  function Converted(o: Options, clock: Clock, s: State, i: nat): (r: State)
    ensures r.tick >= s.tick
    requires i < |s.losses|
  {
    s.(losses := s.losses[..i] + s.losses[i + 1..],
       closedThrough := Some(AtLeast(s.closedThrough, s.losses[i].start + o.lossWindowMs)),
       tick := s.tick + 2,
       log := Made(s.log, LossRecord(s.losses[i], clock(s.tick))).(
                generated := s.log.generated + [LossRecord(s.losses[i], clock(s.tick))]))
  }

  function ConvertedEntry(clock: Clock, s: State, i: nat): Entry
    requires i < |s.losses|
  {
    Entry(s.log.entries, LossRecord(s.losses[i], clock(s.tick)), clock(s.tick + 1), false, 0)
  }

  /** The record is queued while there is room, and otherwise counted as lost in its turn. */
  function EmittedOne(o: Options, clock: Clock, s: State, i: nat): (r: State)
    ensures r.tick >= s.tick
    requires i < |s.losses|
  {
    var n, e := Converted(o, clock, s, i), ConvertedEntry(clock, s, i);
    if |n.queue| < o.Capacity() then n.(queue := n.queue + [e]) else Forfeited(n, e, "overflow")
  }

  function EmittedFrom(o: Options, clock: Clock, s: State, i: nat, all: bool): (r: State)
    ensures r.tick >= s.tick
    ensures r.hung == s.hung
    decreases |s.losses| - i
  {
    if i >= |s.losses| then s
    else if all then EmittedFrom(o, clock, EmittedOne(o, clock, s, i), i, all)
    else
      var checked := s.(tick := s.tick + 1);
      if s.losses[i].start + o.lossWindowMs > clock(s.tick) then EmittedFrom(o, clock, checked, i + 1, all)
      else EmittedFrom(o, clock, EmittedOne(o, clock, checked, i), i, all)
  }

  /** `emitLosses`. */
  function Emitted(o: Options, clock: Clock, s: State, all: bool): (r: State)
    ensures r.tick >= s.tick
    ensures r.hung == s.hung
    requires o.Valid()
  {
    var begun := if all
      then s.(closedThrough := Some(AtLeast(s.closedThrough, o.Window(clock(s.tick)) + o.lossWindowMs)),
              tick := s.tick + 1)
      else s;
    EmittedFrom(o, clock, begun, 0, all)
  }

  function KindOf(e: Entry): string {
    if e.ambiguous then "unconfirmed" else e.record.kind
  }

  function SessionOf(r: UsageRecord): string {
    if r.session.Some? then r.session.value else ""
  }

  /** The counter for a given-up record, and the eviction that may follow. */
  function Charged(o: Options, clock: Clock, s: State, e: Entry): (r: State)
    ensures r.tick >= s.tick
    ensures s.hung ==> r.hung
    requires o.Valid()
  {
    var start := AtLeast(s.closedThrough, o.Window(clock(s.tick)));
    var losses := Counted(s.losses, start, SessionOf(e.record), e.record.at, KindOf(e));
    var n := s.(tick := s.tick + 1, log := s.log.(givenUp := s.log.givenUp + [GivenUp(e.record, KindOf(e))]));
    n.(losses := Evicted(losses, o.maxLossCounters),
       hung := s.hung || |Starts(losses)| > o.maxLossCounters)
  }

  /** `account`. */
  function Accounted(o: Options, clock: Clock, s: State, e: Entry, reason: string): (r: State)
    ensures r.tick >= s.tick
    ensures s.hung ==> r.hung
    requires o.Valid()
  {
    var f := Forfeited(s, e, reason);
    if e.record.kind == LOST_KIND then f else Charged(o, clock, Emitted(o, clock, f, false), e)
  }

  function AccountedAll(o: Options, clock: Clock, s: State, es: seq<Entry>, reason: string): (r: State)
    ensures r.tick >= s.tick
    ensures s.hung ==> r.hung
    requires o.Valid()
    decreases |es|
  {
    if es == [] then s else AccountedAll(o, clock, Accounted(o, clock, s, es[0], reason), es[1..], reason)
  }

  // ---------------------------------------------------------------------------------------
  // The stretches of the program between two awaits.
  // ---------------------------------------------------------------------------------------

  /** What a caller hands to `record()`; `at` may be left to the clock. */
  datatype Input =
    | Invalid
    | Snapshot(id: string, at: Option<int>, session: Option<string>, kind: string, evidence: Option<Evidence>)

  /** `record()`. An input that is not plain data is counted as a definite loss. */
  function Recorded(o: Options, clock: Clock, s: State, input: Input): (r: State)
    ensures r.tick >= s.tick
    ensures s.hung ==> r.hung
    requires o.Valid()
  {
    if !s.accepting then s
    else
      var n := Emitted(o, clock, s.(log := s.log.(calls := s.log.calls + 1)), false);
      if input.Invalid? then n.(lost := Bumped(n.lost, "invalid", 1), definiteLoss := n.definiteLoss + 1)
      else Taken(o, clock, n, input)
  }

  /** A plain call becomes an entry, which is queued or accounted for at once. */
  function Taken(o: Options, clock: Clock, n: State, input: Input): (r: State)
    ensures r.tick >= n.tick
    ensures n.hung ==> r.hung
    requires o.Valid() && input.Snapshot?
  {
    var dated := if input.at.Some? then n else n.(tick := n.tick + 1);
    var at := if input.at.Some? then input.at.value else clock(n.tick);
    var record := UsageRecord(Given(input.id), at, input.session, input.kind, input.evidence);
    var e := Entry(n.log.entries, record, clock(dated.tick), false, 0);
    var made := dated.(tick := dated.tick + 1, log := Made(dated.log, record));
    if |made.queue| >= o.queueLimit then Accounted(o, clock, made, e, "overflow")
    else made.(queue := made.queue + [e])
  }

  /** Before a batch is chosen: retried entries whose window has passed are given up on. `k` is
      the position reached, `n` how many entries of the copy are left to look at. */
  function Expired(o: Options, clock: Clock, s: State, k: nat, n: nat): (r: State)
    ensures r.tick >= s.tick
    ensures s.hung ==> r.hung
    requires o.Valid()
    decreases n
  {
    if n == 0 || k >= |s.queue| then s
    else
      var e := s.queue[k];
      if e.attempts == 0 then Expired(o, clock, s, k + 1, n - 1)
      else
        var read := s.(tick := s.tick + 1);
        if clock(s.tick) - e.since >= o.retryWindowMs then
          var out := read.(queue := s.queue[..k] + s.queue[k + 1..]);
          Expired(o, clock, Accounted(o, clock, out, e, "retryWindow"), k, n - 1)
        else Expired(o, clock, read, k + 1, n - 1)
  }

  /** One turn of the sender's loop up to the await; `due` is whether the retry delay is over. */
  function SendBegun(o: Options, clock: Clock, s: State, due: bool): (r: State)
    ensures r.tick >= s.tick
    requires o.Valid()
  {
    var n := Expired(o, clock, s, 0, |s.queue|);
    if n.hung || n.queue == [] || !due then n
    else n.(inFlight := if |n.queue| < o.batchSize then |n.queue| else o.batchSize,
            log := n.log.(attemptStored := false))
  }

  /** `pending`: the entries of the attempt in flight (`RecorderRuns.BatchIsPrefix`). */
  function Batch(s: State): (es: seq<Entry>)
    ensures es <= s.queue
  {
    if s.inFlight <= |s.queue| then s.queue[..s.inFlight] else s.queue
  }

  /** The attempt in flight stores one entry of its batch, acknowledged or not. */
  function Stored(s: State, serial: nat): State {
    s.(log := s.log.(stored := s.log.stored + {serial}, attemptStored := true))
  }

  /** An attempt that ended ambiguously, or that `close()` no longer waited for, stores something. */
  function StoredLate(s: State, serial: nat): State {
    s.(log := s.log.(stored := s.log.stored + {serial}))
  }

  /** The transport resolved. */
  function SendSucceeded(s: State): State
  {
    if s.finished then s.(inFlight := 0)
    else s.(delivered := s.delivered + |Batch(s)|, queue := s.queue[|Batch(s)|..], inFlight := 0,
            log := s.log.(fates := s.log.fates + map x | x in Serials(Batch(s)) :: Acknowledged))
  }

  /** The transport rejected: every entry of the batch is marked, and expires or stays. */
  function Marked(o: Options, clock: Clock, s: State, k: nat, n: nat, ambiguous: bool): (r: State)
    ensures r.tick >= s.tick
    ensures s.hung ==> r.hung
    requires o.Valid()
    decreases n
  {
    if n == 0 || k >= |s.queue| then s
    else
      var e := s.queue[k].(ambiguous := s.queue[k].ambiguous || ambiguous, attempts := s.queue[k].attempts + 1);
      var read := s.(tick := s.tick + 1);
      if clock(s.tick) - e.since >= o.retryWindowMs then
        var out := read.(queue := s.queue[..k] + s.queue[k + 1..]);
        Marked(o, clock, Accounted(o, clock, out, e, "retryWindow"), k, n - 1, ambiguous)
      else Marked(o, clock, read.(queue := s.queue[k := e]), k + 1, n - 1, ambiguous)
  }

  /** The batch is no longer in flight; after an ambiguous failure it may still be stored. */
  function Refused(s: State, ambiguous: bool): State {
    s.(inFlight := 0, log := s.log.(doubtful := s.log.doubtful + if ambiguous then Serials(Batch(s)) else {}))
  }

  function SendFailed(o: Options, clock: Clock, s: State, ambiguous: bool): (r: State)
    ensures r.tick >= s.tick
    requires o.Valid()
  {
    if s.finished then s.(inFlight := 0)
    else
      var n := Marked(o, clock, Refused(s, ambiguous), 0, s.inFlight, ambiguous);
      if n.hung then n else Emitted(o, clock, n, !n.accepting)
  }

  /** The first part of `close()`. */
  function CloseBegun(o: Options, clock: Clock, s: State): (r: State)
    ensures r.tick >= s.tick
    requires o.Valid()
  {
    Emitted(o, clock, s.(accepting := false), true)
  }

  function MarkedAmbiguous(es: seq<Entry>, n: nat): seq<Entry>
  {
    if es == [] || n == 0 then es else [es[0].(ambiguous := true)] + MarkedAmbiguous(es[1..], n - 1)
  }

  lemma {:induction false} MarkedAmbiguousIs(es: seq<Entry>, n: nat)
    ensures var r := MarkedAmbiguous(es, n);
      && |r| == |es|
      && forall i :: 0 <= i < |es| ==> r[i] == if i < n then es[i].(ambiguous := true) else es[i]
  {
    if es != [] && n > 0 {
      MarkedAmbiguousIs(es[1..], n - 1);
    }
  }

  function Serials(es: seq<Entry>): set<nat> {
    set e | e in es :: e.serial
  }

  /** The last part of `close()`, after draining or at the deadline. */
  function CloseFinished(o: Options, clock: Clock, s: State): (r: State)
    ensures r.tick >= s.tick
    requires o.Valid()
  {
    var entries := MarkedAmbiguous(s.queue, s.inFlight);
    var closed := s.(finished := true, queue := [], log := s.log.(doubtful := s.log.doubtful + Serials(Batch(s))));
    var first := Emitted(o, clock, AccountedAll(o, clock, closed, entries, "closeTimeout"), true);
    AccountedAll(o, clock, first.(queue := []), first.queue, "closeTimeout")
  }

  datatype Action =
    | Record(input: Input)
    | Flush(draining: bool)        // the timer, flush(), or the drain loop of close()
    | SendBegin(due: bool)
    | Store(serial: nat)
    | StoreLate(serial: nat)
    | SendOk
    | SendFail(ambiguous: bool)
    | CloseBegin
    | CloseFinish

  /** When a step may happen. The transport is sound: it reports a failure as certainly not
      delivered only if the attempt stored nothing. */
  predicate Enabled(s: State, a: Action) {
    && !s.hung
    && match a
       case Record(_) => true
       case Flush(draining) => draining ==> !s.accepting
       case SendBegin(_) => !s.finished && s.inFlight == 0 && s.queue != []
       case Store(serial) => !s.finished && s.inFlight > 0 && serial in Serials(Batch(s))
       case StoreLate(serial) => serial in s.log.doubtful
       case SendOk => s.inFlight > 0
       case SendFail(ambiguous) => s.inFlight > 0 && (ambiguous || !s.log.attemptStored)
       case CloseBegin => s.accepting
       case CloseFinish => !s.accepting && !s.finished
  }

  function Next(o: Options, clock: Clock, s: State, a: Action): (r: State)
    ensures r.tick >= s.tick
    requires o.Valid() && Enabled(s, a)
  {
    match a
    case Record(input) => Recorded(o, clock, s, input)
    case Flush(draining) => Emitted(o, clock, s, draining)
    case SendBegin(due) => SendBegun(o, clock, s, due)
    case Store(serial) => Stored(s, serial)
    case StoreLate(serial) => StoredLate(s, serial)
    case SendOk => SendSucceeded(s)
    case SendFail(ambiguous) => SendFailed(o, clock, s, ambiguous)
    case CloseBegin => CloseBegun(o, clock, s)
    case CloseFinish => CloseFinished(o, clock, s)
  }

  predicate Legal(o: Options, clock: Clock, s: State, steps: seq<Action>)
    requires o.Valid()
    decreases |steps|
  {
    steps == [] || (Enabled(s, steps[0]) && Legal(o, clock, Next(o, clock, s, steps[0]), steps[1..]))
  }

  function After(o: Options, clock: Clock, s: State, steps: seq<Action>): State
    requires o.Valid() && Legal(o, clock, s, steps)
    decreases |steps|
  {
    if steps == [] then s else After(o, clock, Next(o, clock, s, steps[0]), steps[1..])
  }
}
