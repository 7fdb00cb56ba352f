/**
 The usage recorder as the program has it: entries are objects shared by the queue and the batch in
 flight and are marked in place, counters are updated by loops. Each method is proved to compute
 the function of `UsageSpec` that the other modules reason about.
 */
module UsageRecording {

  import opened Wrappers
  import opened UsageSpec
  import opened LossEvidence

  class QueueEntry {
    const serial: nat
    const record: UsageRecord
    const since: int
    var ambiguous: bool
    var attempts: nat

    constructor (serial: nat, record: UsageRecord, since: int)
      ensures Value() == Entry(serial, record, since, false, 0)
    {
      this.serial, this.record, this.since := serial, record, since;
      ambiguous, attempts := false, 0;
    }

    ghost function Value(): Entry
      reads this
    {
      Entry(serial, record, since, ambiguous, attempts)
    }
  }

  ghost function Values(q: seq<QueueEntry>): (r: seq<Entry>)
    reads q
    ensures |r| == |q|
    ensures forall i :: 0 <= i < |q| ==> r[i] == q[i].Value()
  {
    if q == [] then [] else Values(q[..|q| - 1]) + [q[|q| - 1].Value()]
  }

  function Ambiguous(es: seq<Entry>): nat {
    if es == [] then 0 else Ambiguous(es[..|es| - 1]) + if es[|es| - 1].ambiguous then 1 else 0
  }

  lemma EmittedEnd(o: Options, clock: Clock, s: State, i: nat, all: bool)
    requires i >= |s.losses|
    ensures EmittedFrom(o, clock, s, i, all) == s
  {
  }

  ghost predicate NoRepeats(q: seq<QueueEntry>) {
    forall i, j :: 0 <= i < j < |q| ==> q[i] != q[j]
  }

  lemma CountersDistinct(ls: seq<Loss>, start: int, g: GivenUp, max: nat)
    requires DistinctCounters(ls)
    ensures var c := Counted(ls, start, SessionOf(g.record), g.record.at, g.kind);
      DistinctCounters(c) && DistinctCounters(Evicted(c, max))
  {
    CountedCovers(ls, start, g);
    EvictionCarries(Counted(ls, start, SessionOf(g.record), g.record.at, g.kind), max);
  }

  lemma ValuesAppend(q: seq<QueueEntry>, e: QueueEntry)
    ensures Values(q + [e]) == Values(q) + [e.Value()]
    ensures NoRepeats(q) && e !in q ==> NoRepeats(q + [e])
  {
    hide Values;
  }

  /** What a loop over a copy still has to look at stands together in the list, from `k` on. */
  ghost predicate Ahead<T>(copy: seq<T>, j: nat, list: seq<T>, k: nat) {
    j <= |copy| && k + (|copy| - j) <= |list| && list[k..k + (|copy| - j)] == copy[j..]
  }

  lemma AheadStart<T>(copy: seq<T>, list: seq<T>)
    requires copy <= list
    ensures Ahead(copy, 0, list, 0)
  {
  }

  lemma AheadNext<T>(copy: seq<T>, j: nat, list: seq<T>, k: nat)
    requires j < |copy| && Ahead(copy, j, list, k)
    ensures k + (|copy| - j) <= |list| && list[k] == copy[j]
  {
    assert list[k..k + (|copy| - j)][0] == copy[j..][0];
  }

  lemma StillAhead<T>(before: seq<T>, after: seq<T>, copy: seq<T>, j: nat, k: nat, gone: bool)
    requires j < |copy| && Ahead(copy, j, before, k) && k < |before|
    requires if gone then before[..k] + before[k + 1..] <= after else after == before
    ensures Ahead(copy, j + 1, after, if gone then k else k + 1)
  {
    var n := |copy| - j;
    assert copy[j..][1..] == copy[j + 1..];
    if gone {
      assert (before[..k] + before[k + 1..])[k..k + n - 1] == before[k + 1..k + n];
      assert after[k..k + n - 1] == before[k..k + n][1..];
    } else {
      assert before[k + 1..k + n] == before[k..k + n][1..];
    }
  }

  class UsageRecorder {
    const options: Options
    const clock: Clock
    var tick: nat
    var queue: seq<QueueEntry>
    var pending: seq<QueueEntry>
    var losses: seq<Loss>
    var lost: map<string, nat>
    var delivered: nat
    var definiteLoss: nat
    var unconfirmed: nat
    var closedThrough: Option<int>
    var accepting: bool
    var finished: bool
    var made: nat
    ghost var log: Log

    /** The batch being sent is the front of the queue, as objects, until the recorder is closed. */
    ghost predicate Valid()
      reads this
    {
      && options.Valid()
      && NoRepeats(queue)
      && (!finished ==> pending <= queue)
      && made == log.entries
      && DistinctCounters(losses)
    }

    ghost function View(): State
      reads this, queue
    {
      State(Values(queue), |pending|, losses, lost, delivered, definiteLoss, unconfirmed, closedThrough,
            accepting, finished, false, tick, log)
    }

    constructor (options: Options, clock: Clock)
      requires options.Valid()
      ensures Valid() && View() == INITIAL
      ensures this.options == options && this.clock == clock
    {
      this.options, this.clock := options, clock;
      tick, queue, pending, losses, lost, made := 0, [], [], [], map[], 0;
      delivered, definiteLoss, unconfirmed := 0, 0, 0;
      closedThrough, accepting, finished := None, true, false;
      log := INITIAL.log;
    }

    method Now() returns (t: int)
      modifies this`tick
      ensures t == clock(old(tick)) && tick == old(tick) + 1
    {
      t := clock(tick);
      tick := tick + 1;
    }

    /** The queue after accounting: what was there, and new entries behind it. */
    twostate predicate OnlyAppended()
      reads this
    {
      && old(queue) <= queue && pending == old(pending) && finished == old(finished)
      && accepting == old(accepting)
      && forall i :: |old(queue)| <= i < |queue| ==> fresh(queue[i])
    }

    /** `account`. It is entered again only for loss records, which it counts and leaves. */
    method Account(e: QueueEntry, reason: string)
      requires Valid() && !Accounted(options, clock, View(), e.Value(), reason).hung
      modifies this
      ensures Valid() && OnlyAppended()
      ensures View() == Accounted(options, clock, old(View()), old(e.Value()), reason)
      decreases if e.record.kind == LOST_KIND then 0 else 2, 0
    {
      hide Forfeited, Charged, Emitted, Values, NoRepeats, DistinctCounters;
      Forfeit(e, reason);
      if e.record.kind != LOST_KIND {
        EmitLosses(false);
        Charge(e);
      }
    }

    method Forfeit(e: QueueEntry, reason: string)
      requires Valid()
      modifies this`lost, this`unconfirmed, this`definiteLoss, this`log
      ensures Valid()
      ensures View() == Forfeited(old(View()), e.Value(), reason)
    {
      hide Bumped, Values, NoRepeats, DistinctCounters;
      lost := Bumped(lost, reason, 1);
      if e.ambiguous {
        unconfirmed := unconfirmed + 1;
      } else {
        definiteLoss := definiteLoss + 1;
        log := log.(definite := log.definite + {e.serial});
      }
      log := log.(fates := log.fates[e.serial := Dropped(reason, e.Value(), |queue|, tick)]);
    }

    method Charge(e: QueueEntry)
      requires Valid() && !Charged(options, clock, View(), e.Value()).hung
      modifies this`tick, this`losses, this`log
      ensures Valid()
      ensures View() == Charged(options, clock, old(View()), e.Value())
    {
      hide Counted, Evicted, Starts, Carries, CountedBy, DistinctCounters, Values, NoRepeats, Options.Window, AtLeast;
      ghost var s, value := View(), e.Value();
      var now := Now();
      var start := AtLeast(closedThrough, options.Window(now));
      var session := if e.record.session.Some? then e.record.session.value else "";
      var kind := if e.ambiguous then "unconfirmed" else e.record.kind;
      assert session == SessionOf(value.record) && kind == KindOf(value);
      CountersDistinct(losses, start, GivenUp(e.record, kind), options.maxLossCounters);
      Count(start, session, e.record.at, kind);
      log := log.(givenUp := log.givenUp + [GivenUp(e.record, kind)]);
      Evict();
    }

    /** Finds or makes the counter of a window and session, and counts one record in it. */
    method Count(start: int, session: string, at: int, kind: string)
      modifies this`losses
      ensures losses == Counted(old(losses), start, session, at, kind)
    {
      var k := FindLoss(losses, start, session);
      if k == |losses| {
        losses := losses + [Loss(session, start, at, at, map[])];
      }
      var l := losses[k];
      losses := losses[k := l.(from := Min(l.from, at), to := Max(l.to, at), counts := Bumped(l.counts, kind, 1))];
    }

    /** The eviction loop; the precondition is exactly that it ends. */
    method Evict()
      requires |Starts(losses)| <= options.maxLossCounters
      requires DistinctCounters(losses)
      modifies this`losses
      ensures losses == Evicted(old(losses), options.maxLossCounters)
    {
      while |losses| > options.maxLossCounters
        invariant DistinctCounters(losses) && |Starts(losses)| <= options.maxLossCounters
        invariant Evicted(losses, options.maxLossCounters) == Evicted(old(losses), options.maxLossCounters)
        decreases Scoped(losses), Lead(losses)
      {
        EvictOneProgress(losses);
        if Scoped(losses) == 0 { GlobalsAreWindows(losses); }
        var oldest := losses[0];
        losses := losses[1..];
        var k := FindLoss(losses, oldest.start, "");
        if k < |losses| {
          losses := losses[k := Absorb(losses[k], oldest)];
        } else {
          losses := losses + [oldest.(session := "")];
        }
      }
    }

    method EmitLosses(all: bool)
      requires Valid()
      modifies this
      ensures Valid() && OnlyAppended()
      ensures View() == Emitted(options, clock, old(View()), all)
      decreases 1, 3
    {
      hide EmittedFrom, Values, NoRepeats, DistinctCounters;
      if all {
        var now := Now();
        closedThrough := Some(AtLeast(closedThrough, options.Window(now) + options.lossWindowMs));
      }
      EmitDue(all);
    }

    method EmitDue(all: bool)
      requires Valid()
      modifies this
      ensures Valid() && OnlyAppended()
      ensures View() == EmittedFrom(options, clock, old(View()), 0, all)
      decreases 1, 2
    {
      hide EmittedFrom, Values, NoRepeats, DistinctCounters;
      var i: nat := 0;
      while i < |losses|
        invariant Valid() && OnlyAppended()
        invariant EmittedFrom(options, clock, View(), i, all) == EmittedFrom(options, clock, old(View()), 0, all)
        decreases |losses| - i
      {
        i := Look(i, all);
      }
      EmittedEnd(options, clock, View(), i, all);
    }

    /** One turn of the loop: the counter at `i` is passed over or leaves. */
    method Look(i: nat, all: bool) returns (next: nat)
      requires Valid() && i < |losses|
      modifies this
      ensures Valid() && OnlyAppended()
      ensures EmittedFrom(options, clock, View(), next, all) == EmittedFrom(options, clock, old(View()), i, all)
      ensures |losses| - next == |old(losses)| - i - 1
      decreases 1, 1
    {
      hide EmittedOne, Values, NoRepeats, DistinctCounters;
      var due := all;
      if !all {
        var now := Now();
        due := losses[i].start + options.lossWindowMs <= now;
      }
      if due {
        EmitOne(i);
        next := i;
      } else {
        next := i + 1;
      }
    }

    method EmitOne(i: nat)
      requires Valid() && i < |losses|
      modifies this
      ensures Valid() && OnlyAppended()
      ensures View() == EmittedOne(options, clock, old(View()), i)
      ensures |losses| == |old(losses)| - 1
      decreases 1, 0
    {
      hide Converted, ConvertedEntry, Forfeited, DistinctCounters, NoRepeats, Values;
      var entry := Convert(i);
      if |queue| < options.Capacity() {
        Enqueue(entry);
      } else {
        Account(entry, "overflow");
      }
    }

    /** The i-th counter leaves the map and becomes an entry. */
    method Convert(i: nat) returns (entry: QueueEntry)
      requires Valid() && i < |losses|
      modifies this`losses, this`closedThrough, this`tick, this`made, this`log
      ensures Valid() && fresh(entry) && entry.record.kind == LOST_KIND
      ensures View() == Converted(options, clock, old(View()), i)
      ensures entry.Value() == ConvertedEntry(clock, old(View()), i)
      ensures |losses| == |old(losses)| - 1
    {
      hide NoRepeats, Values, Bumped;
      var loss := losses[i];
      losses := losses[..i] + losses[i + 1..];
      closedThrough := Some(AtLeast(closedThrough, loss.start + options.lossWindowMs));
      var at := Now();
      var record := LossRecord(loss, at);
      var since := Now();
      entry := new QueueEntry(made, record, since);
      made := made + 1;
      log := Made(log, record).(generated := log.generated + [record]);
    }

    /** `record()` of a recorder whose input was copied; `Invalid` is an input that is not plain. */
    method Record(input: Input)
      requires Valid() && !Recorded(options, clock, View(), input).hung
      modifies this
      ensures Valid() && old(queue) <= queue && pending == old(pending)
      ensures View() == Recorded(options, clock, old(View()), input)
    {
      hide Emitted, Taken, NoRepeats, DistinctCounters, Values, Bumped;
      if !accepting {
        return;
      }
      log := log.(calls := log.calls + 1);
      EmitLosses(false);
      if input.Invalid? {
        Refuse();
      } else {
        Take(input);
      }
    }

    method Take(input: Input)
      requires Valid() && input.Snapshot? && !Taken(options, clock, View(), input).hung
      modifies this
      ensures Valid() && old(queue) <= queue && pending == old(pending)
      ensures View() == Taken(options, clock, old(View()), input)
    {
      hide Accounted, NoRepeats, DistinctCounters, Values;
      var time: int;
      if input.at.Some? { time := input.at.value; } else { time := Now(); }
      Admit(UsageRecord(Given(input.id), time, input.session, input.kind, input.evidence));
    }

    method Refuse()
      requires Valid()
      modifies this`lost, this`definiteLoss
      ensures Valid()
      ensures View() == old(View()).(lost := Bumped(old(lost), "invalid", 1), definiteLoss := old(definiteLoss) + 1)
    {
      hide NoRepeats, DistinctCounters, Values, Bumped;
      lost := Bumped(lost, "invalid", 1);
      definiteLoss := definiteLoss + 1;
    }

    /** A new entry is queued, or accounted for when the queue is at its limit. */
    method Admit(record: UsageRecord)
      requires Valid()
      requires var e := Entry(log.entries, record, clock(tick), false, 0);
        var n := View().(tick := tick + 1, log := Made(log, record));
        |queue| >= options.queueLimit ==> !Accounted(options, clock, n, e, "overflow").hung
      modifies this
      ensures Valid() && old(queue) <= queue && pending == old(pending)
      ensures var e := Entry(old(log.entries), record, clock(old(tick)), false, 0);
        var n := old(View()).(tick := old(tick) + 1, log := Made(old(log), record));
        View() == if |old(queue)| >= options.queueLimit then Accounted(options, clock, n, e, "overflow")
                  else n.(queue := n.queue + [e])
    {
      hide Accounted, DistinctCounters, NoRepeats, Values;
      var entry := Make(record);
      if |queue| >= options.queueLimit {
        Account(entry, "overflow");
      } else {
        Enqueue(entry);
      }
    }

    method Make(record: UsageRecord) returns (entry: QueueEntry)
      requires Valid()
      modifies this`tick, this`made, this`log
      ensures Valid() && fresh(entry)
      ensures entry.Value() == Entry(old(log.entries), record, clock(old(tick)), false, 0)
      ensures View() == old(View()).(tick := old(tick) + 1, log := Made(old(log), record))
    {
      hide DistinctCounters, NoRepeats, Values;
      var since := Now();
      entry := new QueueEntry(made, record, since);
      made := made + 1;
      log := Made(log, record);
    }

    method Enqueue(entry: QueueEntry)
      requires Valid() && entry !in queue
      modifies this`queue
      ensures Valid() && queue == old(queue) + [entry]
      ensures View() == old(View()).(queue := old(Values(queue)) + [entry.Value()])
    {
      hide DistinctCounters, NoRepeats, Values;
      ValuesAppend(queue, entry);
      queue := queue + [entry];
    }

    /** `queue.splice(queue.indexOf(entry), 1)`. */
    method Remove(e: QueueEntry, ghost k: nat)
      requires Valid() && pending == [] && k < |queue| && queue[k] == e
      modifies this`queue
      ensures Valid() && queue == old(queue)[..k] + old(queue)[k + 1..]
      ensures View() == old(View()).(queue := old(Values(queue))[..k] + old(Values(queue))[k + 1..])
    {
      hide DistinctCounters, Options.Valid;
      var i := 0;
      while queue[i] != e
        invariant i <= k
        decreases k - i
      {
        i := i + 1;
      }
      queue := queue[..i] + queue[i + 1..];
      assert forall j :: 0 <= j < |queue| ==> queue[j] == old(queue)[if j < k then j else j + 1];
    }

    /** The start of the sender's loop: retried entries whose time is up are given up on. */
    method Expire()
      requires Valid() && pending == []
      requires !Expired(options, clock, View(), 0, |queue|).hung
      modifies this
      ensures Valid() && pending == [] && finished == old(finished)
      ensures View() == Expired(options, clock, old(View()), 0, |old(queue)|)
    {
      hide Expired, NoRepeats, DistinctCounters, Values, Accounted, Ahead;
      var copy := queue;
      AheadStart(copy, queue);
      ghost var target := Expired(options, clock, View(), 0, |queue|);
      ghost var k: nat := 0;
      var j: nat := 0;
      while j < |copy|
        invariant j <= |copy| && Ahead(copy, j, queue, k)
        invariant Valid() && pending == [] && finished == old(finished)
        invariant Expired(options, clock, View(), k, |copy| - j) == target
      {
        AheadNext(copy, j, queue, k);
        ghost var before := queue;
        var gone := ExpireOne(copy[j], k, |copy| - j);
        StillAhead(before, queue, copy, j, k, gone);
        if !gone { k := k + 1; }
        j := j + 1;
      }
      ExpiredEnd(options, clock, View(), k);
    }

    method ExpireOne(e: QueueEntry, ghost k: nat, ghost n: nat) returns (gone: bool)
      requires Valid() && pending == [] && n > 0 && k + n <= |queue| && queue[k] == e
      requires !Expired(options, clock, View(), k, n).hung
      modifies this
      ensures Valid() && pending == [] && finished == old(finished)
      ensures if gone then old(queue)[..k] + old(queue)[k + 1..] <= queue else queue == old(queue)
      ensures Expired(options, clock, View(), if gone then k else k + 1, n - 1) ==
        Expired(options, clock, old(View()), k, n)
    {
      hide Accounted, NoRepeats, DistinctCounters;
      gone := false;
      if e.attempts > 0 {
        var now := Now();
        if now - e.since >= options.retryWindowMs {
          GiveUp(e, k);
          gone := true;
        }
      }
    }

    /** A retried entry whose window has passed leaves the queue and is accounted for. */
    method GiveUp(e: QueueEntry, ghost k: nat)
      requires Valid() && pending == [] && k < |queue| && queue[k] == e
      requires var left := Values(queue)[..k] + Values(queue)[k + 1..];
        !Accounted(options, clock, View().(queue := left), e.Value(), "retryWindow").hung
      modifies this
      ensures Valid() && pending == [] && finished == old(finished) && accepting == old(accepting)
      ensures old(queue)[..k] + old(queue)[k + 1..] <= queue
      ensures var left := old(Values(queue))[..k] + old(Values(queue))[k + 1..];
        View() == Accounted(options, clock, old(View()).(queue := left), old(e.Value()), "retryWindow")
    {
      hide Accounted, NoRepeats, DistinctCounters, Values;
      Remove(e, k);
      Account(e, "retryWindow");
    }

    /** One turn of the sender up to its await; returns whether a batch is being sent. */
    method BeginSend(due: bool) returns (sending: bool)
      requires Valid() && pending == [] && !finished
      requires !SendBegun(options, clock, View(), due).hung
      modifies this
      ensures Valid() && !finished
      ensures View() == SendBegun(options, clock, old(View()), due)
      ensures sending <==> due && queue != []
      ensures sending ==> pending != [] && pending <= queue
    {
      hide Expired, DistinctCounters, NoRepeats, Values;
      Expire();
      sending := queue != [] && due;
      if sending {
        pending := if |queue| < options.batchSize then queue else queue[..options.batchSize];
        log := log.(attemptStored := false);
      }
    }

    /** The transport acknowledged the batch. */
    method Resolve()
      requires Valid() && pending != []
      modifies this
      ensures Valid() && View() == SendSucceeded(old(View()))
    {
      hide DistinctCounters, NoRepeats, Values;
      if !finished {
        log := SendSucceeded(View()).log;
        delivered := delivered + |pending|;
        Shift(|pending|);
      }
      pending := [];
    }

    /** `queue.splice(0, n)`, for a batch that is about to be no longer pending. */
    method Shift(n: nat)
      requires n <= |queue|
      modifies this`queue
      ensures queue == old(queue)[n..] && Values(queue) == old(Values(queue))[n..]
      ensures old(NoRepeats(queue)) ==> NoRepeats(queue)
    {
      queue := queue[n..];
    }

    /** The transport refused the batch: each entry of it is marked in place, and given up on when
        its retry window has passed. Nothing reads `pending` before the method ends. */
    method Reject(ambiguous: bool)
      requires Valid() && pending != []
      requires !SendFailed(options, clock, View(), ambiguous).hung
      modifies this, pending
      ensures Valid() && View() == SendFailed(options, clock, old(View()), ambiguous)
    {
      hide Marked, Emitted, Values, NoRepeats, DistinctCounters, Serials, Batch;
      ghost var s := View();
      var batch := pending;
      pending := [];
      if finished {
        return;
      }
      log := log.(doubtful := log.doubtful + if ambiguous then Serials(Batch(s)) else {});
      MarkBatch(batch, ambiguous);
      EmitLosses(!accepting);
    }

    method MarkBatch(batch: seq<QueueEntry>, ambiguous: bool)
      requires Valid() && pending == [] && batch <= queue
      requires !Marked(options, clock, View(), 0, |batch|, ambiguous).hung
      modifies this, batch
      ensures Valid() && pending == [] && finished == old(finished) && accepting == old(accepting)
      ensures View() == Marked(options, clock, old(View()), 0, |batch|, ambiguous)
    {
      hide Marked, NoRepeats, DistinctCounters, Values, Ahead;
      AheadStart(batch, queue);
      ghost var target := Marked(options, clock, View(), 0, |batch|, ambiguous);
      ghost var k: nat := 0;
      var j: nat := 0;
      while j < |batch|
        invariant j <= |batch| && Ahead(batch, j, queue, k)
        invariant Valid() && pending == [] && finished == old(finished) && accepting == old(accepting)
        invariant Marked(options, clock, View(), k, |batch| - j, ambiguous) == target
      {
        AheadNext(batch, j, queue, k);
        ghost var before := queue;
        var gone := MarkOne(batch[j], k, |batch| - j, ambiguous);
        StillAhead(before, queue, batch, j, k, gone);
        if !gone { k := k + 1; }
        j := j + 1;
      }
      MarkedEnd(options, clock, View(), k, ambiguous);
    }

    method MarkOne(e: QueueEntry, ghost k: nat, ghost n: nat, ambiguous: bool) returns (gone: bool)
      requires Valid() && pending == [] && n > 0 && k + n <= |queue| && queue[k] == e
      requires !Marked(options, clock, View(), k, n, ambiguous).hung
      modifies this, e
      ensures Valid() && pending == [] && finished == old(finished) && accepting == old(accepting)
      ensures if gone then old(queue)[..k] + old(queue)[k + 1..] <= queue else queue == old(queue)
      ensures Marked(options, clock, View(), if gone then k else k + 1, n - 1, ambiguous)
           == Marked(options, clock, old(View()), k, n, ambiguous)
    {
      hide Marked, Accounted, DistinctCounters, NoRepeats, Values;
      gone := false;
      ghost var before := Values(queue);
      MarkedFirst(options, clock, View(), k, n, ambiguous);
      Mark(e, k, ambiguous);
      var now := Now();
      if now - e.since >= options.retryWindowMs {
        assert before[k := e.Value()][..k] == before[..k] && before[k := e.Value()][k + 1..] == before[k + 1..];
        GiveUp(e, k);
        gone := true;
      }
    }

    method Mark(e: QueueEntry, ghost k: nat, ambiguous: bool)
      requires NoRepeats(queue) && k < |queue| && queue[k] == e
      modifies e
      ensures e.Value() == old(e.Value()).(ambiguous := old(e.ambiguous) || ambiguous, attempts := old(e.attempts) + 1)
      ensures View() == old(View()).(queue := old(Values(queue))[k := e.Value()])
    {
      ghost var before := Values(queue);
      e.ambiguous := e.ambiguous || ambiguous;
      e.attempts := e.attempts + 1;
      assert forall i :: 0 <= i < |queue| && i != k ==> queue[i] != e;
      assert Values(queue) == before[k := e.Value()];
    }

    method BeginClose()
      requires Valid()
      modifies this
      ensures Valid() && View() == CloseBegun(options, clock, old(View()))
    {
      hide Emitted, Values, NoRepeats, DistinctCounters;
      accepting := false;
      EmitLosses(true);
    }

    /** The end of `close()`: what is in flight becomes ambiguous, everything queued is given up
        on, and so is the evidence this makes. Returns what `close()` reports. */
    method FinishClose() returns (result: (nat, nat, nat))
      requires Valid() && !accepting && !finished
      requires !CloseFinished(options, clock, View()).hung
      modifies this, pending
      ensures Valid() && View() == CloseFinished(options, clock, old(View()))
      ensures result == (delivered, definiteLoss, unconfirmed)
    {
      hide AccountedAll, Emitted, DistinctCounters, NoRepeats, Values, MarkedAmbiguous;
      ghost var s := View();
      MarkPending();
      finished := true;
      log := log.(doubtful := log.doubtful + Serials(Batch(s)));
      ghost var closed := s.(finished := true, queue := [],
                             log := s.log.(doubtful := s.log.doubtful + Serials(Batch(s))));
      assert View().(queue := []) == closed;
      GiveUpAll();
      EmitLosses(true);
      GiveUpAll();
      result := (delivered, definiteLoss, unconfirmed);
    }

    /** `stats()`: an entry that some attempt may have stored counts as unconfirmed while it is queued. */
    method Stats() returns (buffered: nat, delivered: nat, lost: map<string, nat>, unconfirmed: nat)
      requires Valid()
      ensures buffered == |View().queue| && delivered == View().delivered && lost == View().lost
      ensures unconfirmed == View().unconfirmed + Ambiguous(View().queue)
    {
      hide Values, NoRepeats, DistinctCounters;
      buffered, delivered, lost := |queue|, this.delivered, this.lost;
      unconfirmed := this.unconfirmed;
      ghost var values := Values(queue);
      for i := 0 to |queue|
        invariant unconfirmed == this.unconfirmed + Ambiguous(values[..i])
      {
        assert values[..i + 1][..i] == values[..i];
        if queue[i].ambiguous {
          unconfirmed := unconfirmed + 1;
        }
      }
      assert values[..|queue|] == values;
    }

    method MarkPending()
      requires Valid() && !finished
      modifies pending
      ensures Valid() && View() == old(View()).(queue := MarkedAmbiguous(old(View()).queue, |pending|))
    {
      ghost var before := Values(queue);
      MarkedAmbiguousIs(before, |pending|);
      var j := 0;
      while j < |pending|
        invariant j <= |pending|
        invariant forall i :: 0 <= i < |queue| ==>
          queue[i].Value() == if i < j then before[i].(ambiguous := true) else before[i]
        modifies pending
      {
        assert pending[j] == queue[j];
        pending[j].ambiguous := true;
        j := j + 1;
      }
      assert Values(queue) == MarkedAmbiguous(before, |pending|);
    }

    /** `for (const entry of queue.splice(0)) account(entry, 'closeTimeout')`. */
    method GiveUpAll()
      requires Valid() && finished
      requires !AccountedAll(options, clock, View().(queue := []), Values(queue), "closeTimeout").hung
      modifies this
      ensures Valid() && finished && accepting == old(accepting) && pending == old(pending)
      ensures View() == AccountedAll(options, clock, old(View()).(queue := []), old(Values(queue)), "closeTimeout")
    {
      hide Accounted, AccountedAll, DistinctCounters;
      var entries := queue;
      ghost var values := Values(queue);
      queue := [];
      assert Values([]) == [];
      hide NoRepeats, Values;
      ghost var target := AccountedAll(options, clock, View(), values, "closeTimeout");
      var j := 0;
      assert values[0..] == values;
      while j < |entries|
        invariant j <= |entries|
        invariant Valid() && finished && accepting == old(accepting) && pending == old(pending)
        invariant forall i :: 0 <= i < |entries| ==> entries[i].Value() == values[i]
        invariant AccountedAll(options, clock, View(), values[j..], "closeTimeout") == target
      {
        AccountedNext(options, clock, View(), values[j..], "closeTimeout");
        assert values[j..][1..] == values[j + 1..];
        Account(entries[j], "closeTimeout");
        j := j + 1;
      }
      assert values[j..] == [];
      AccountedNone(options, clock, View(), "closeTimeout");
    }
  }

  lemma AccountedNext(o: Options, clock: Clock, s: State, es: seq<Entry>, reason: string)
    requires o.Valid() && es != []
    ensures AccountedAll(o, clock, s, es, reason) ==
      AccountedAll(o, clock, Accounted(o, clock, s, es[0], reason), es[1..], reason)
  {
  }

  lemma AccountedNone(o: Options, clock: Clock, s: State, reason: string)
    requires o.Valid()
    ensures AccountedAll(o, clock, s, [], reason) == s
  {
  }

  /** The first of the entries left to mark. */
  lemma MarkedFirst(o: Options, clock: Clock, s: State, k: nat, n: nat, ambiguous: bool)
    requires o.Valid() && n > 0 && k < |s.queue|
    ensures var e := s.queue[k].(ambiguous := s.queue[k].ambiguous || ambiguous, attempts := s.queue[k].attempts + 1);
      var read := s.(tick := s.tick + 1);
      var out := Accounted(o, clock, read.(queue := s.queue[..k] + s.queue[k + 1..]), e, "retryWindow");
      if clock(s.tick) - e.since >= o.retryWindowMs
      then Marked(o, clock, s, k, n, ambiguous) == Marked(o, clock, out, k, n - 1, ambiguous)
           && (out.hung ==> Marked(o, clock, s, k, n, ambiguous).hung)
      else
        Marked(o, clock, s, k, n, ambiguous) ==
        Marked(o, clock, read.(queue := s.queue[k := e]), k + 1, n - 1, ambiguous)
  {
    hide Accounted;
  }

  lemma MarkedEnd(o: Options, clock: Clock, s: State, k: nat, ambiguous: bool)
    requires o.Valid()
    ensures Marked(o, clock, s, k, 0, ambiguous) == s
  {
  }

  lemma ExpiredEnd(o: Options, clock: Clock, s: State, k: nat)
    requires o.Valid()
    ensures Expired(o, clock, s, k, 0) == s
  {
  }
}
