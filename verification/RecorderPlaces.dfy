/** Where every entry of the usage recorder is: queued, acknowledged or given up on, and for which reason.
    A loss record is an entry like any other, so evidence is queued while there is room for it.
 */
module RecorderPlaces {

  import opened Wrappers
  import opened UsageSpec
  import opened RecorderRuns

  /** The reasons for giving up: the queue is full, at its limit for a call, and at the limit and the
      reserve together for a loss record; or the entry was sent before, and the last reading of the clock
      was not within its retry window; or the recorder is closed. */
  predicate RightFate(o: Options, clock: Clock, r: UsageRecord, fate: Fate) {
    fate.Dropped? ==>
      && fate.entry.record == r
      && match fate.reason
         case "overflow" =>
           var reserve := if o.reservedLossCapacity > 0 then o.reservedLossCapacity else 0;
           fate.queued >= o.queueLimit + if r.id.LostId? then reserve else 0
         case "retryWindow" =>
           fate.entry.attempts > 0 && fate.tick > 0 && clock(fate.tick - 1) - fate.entry.since >= o.retryWindowMs
         case "closeTimeout" => true
         case _ => false
  }

  /** Every entry made is queued with the record it was made for, has one fate, or is in hand. */
  ghost predicate Placed(o: Options, clock: Clock, s: State, hand: set<nat>) {
    && |s.log.records| == s.log.entries && DistinctSerials(s.queue)
    && (forall i :: 0 <= i < |s.queue| ==> IsQueued(s, hand, s.queue[i]))
    && (forall x :: x in hand ==> x < s.log.entries && x !in s.log.fates)
    && (forall x: nat :: x < s.log.entries ==> x in s.log.fates || x in hand || x in Serials(s.queue))
    && (forall x :: x in s.log.fates ==> x < s.log.entries && RightFate(o, clock, s.log.records[x], s.log.fates[x]))
    && (forall x :: x in s.log.fates && s.log.fates[x].Dropped? && s.log.fates[x].reason == "closeTimeout" ==>
          s.finished)
    && (forall x :: x in s.log.fates && s.log.fates[x].Dropped? ==> RightLoss(s.log, x, s.log.fates[x].entry))
    && (forall x :: x in s.log.definite ==> x in s.log.fates && s.log.fates[x].Dropped?)
    && (forall r :: r in s.log.generated ==> r.id.LostId? && r in s.log.records)
  }

  predicate IsQueued(s: State, hand: set<nat>, e: Entry) {
    && e.serial < s.log.entries && e.serial < |s.log.records| && e.record == s.log.records[e.serial]
    && e.serial !in s.log.fates && e.serial !in hand && (e.ambiguous ==> e.serial in s.log.doubtful)
  }

  /** A loss is unconfirmed only if an attempt may have stored the entry, and otherwise definite. */
  predicate RightLoss(log: Log, x: nat, e: Entry) {
    e.serial == x && (e.ambiguous ==> x in log.doubtful) && (x in log.definite <==> !e.ambiguous)
  }

  /** Records are only added, and the recorder is as closed as it was. */
  ghost predicate Extends(s: State, t: State) {
    s.log.records <= t.log.records && t.finished == s.finished && t.log.doubtful == s.log.doubtful
  }

  // ---------------------------------------------------------------------------------------
  // Every step keeps it.
  // ---------------------------------------------------------------------------------------

  lemma ForfeitedPlaces(o: Options, clock: Clock, s: State, e: Entry, reason: string, hand: set<nat>)
    requires Placed(o, clock, s, hand) && e.serial in hand
    requires RightFate(o, clock, s.log.records[e.serial], Dropped(reason, e, |s.queue|, s.tick))
    requires (reason == "closeTimeout" ==> s.finished) && (e.ambiguous ==> e.serial in s.log.doubtful)
    ensures Placed(o, clock, Forfeited(s, e, reason), hand - {e.serial})
  {
  }

  /** The queue is what it was, and one entry more. */
  lemma SerialsMore(es: seq<Entry>, e: Entry)
    ensures Serials(es + [e]) == Serials(es) + {e.serial}
  {
    assert forall x :: x in es + [e] <==> x in es || x == e;
  }

  lemma QueuedPlaces(o: Options, clock: Clock, s: State, e: Entry, hand: set<nat>)
    requires Placed(o, clock, s, hand) && e.serial in hand && e.record == s.log.records[e.serial] && !e.ambiguous
    ensures Placed(o, clock, s.(queue := s.queue + [e]), hand - {e.serial})
  {
    SerialsMore(s.queue, e);
    var t := s.(queue := s.queue + [e]);
    forall i | 0 <= i < |t.queue|
      ensures IsQueued(t, hand - {e.serial}, t.queue[i])
    {
      assert i < |s.queue| ==> IsQueued(s, hand, s.queue[i]);
    }
  }

  /** A new entry is in hand. */
  lemma MadePlaces(o: Options, clock: Clock, s: State, t: State, r: UsageRecord, hand: set<nat>)
    requires Placed(o, clock, s, hand) && t.queue == s.queue && t.finished == s.finished
    requires t.log == Made(s.log, r) || (r.id.LostId? && t.log == Made(s.log, r).(generated := s.log.generated + [r]))
    ensures Placed(o, clock, t, hand + {s.log.entries}) && t.log.records[s.log.entries] == r
  {
    assert forall x :: x in s.log.records ==> x in t.log.records;
    assert t.log.records[|s.log.records|] == r;
    forall i | 0 <= i < |t.queue|
      ensures IsQueued(t, hand + {s.log.entries}, t.queue[i])
    {
      assert IsQueued(s, hand, s.queue[i]);
    }
  }

  lemma EmittedOnePlaces(o: Options, clock: Clock, s: State, i: nat, hand: set<nat>)
    requires Placed(o, clock, s, hand) && i < |s.losses|
    ensures Placed(o, clock, EmittedOne(o, clock, s, i), hand) && Extends(s, EmittedOne(o, clock, s, i))
  {
    hide Placed;
    var n, e := Converted(o, clock, s, i), ConvertedEntry(clock, s, i);
    MadePlaces(o, clock, s, n, e.record, hand);
    NotYetInHand(o, clock, s, hand);
    assert (hand + {e.serial}) - {e.serial} == hand;
    if |n.queue| < o.Capacity() {
      QueuedPlaces(o, clock, n, e, hand + {e.serial});
    } else {
      ForfeitedPlaces(o, clock, n, e, "overflow", hand + {e.serial});
    }
  }

  lemma NotYetInHand(o: Options, clock: Clock, s: State, hand: set<nat>)
    requires Placed(o, clock, s, hand)
    ensures s.log.entries !in hand && |s.log.records| == s.log.entries
  {
  }

  /** Nothing but the clock, the counters and the totals differs. */
  lemma SamePlaces(o: Options, clock: Clock, s: State, t: State, hand: set<nat>)
    requires Placed(o, clock, s, hand) && t.queue == s.queue
    requires t.log.entries == s.log.entries && t.log.records == s.log.records && t.log.fates == s.log.fates
    requires t.log.generated == s.log.generated && (s.finished ==> t.finished)
    requires t.log.definite == s.log.definite && s.log.doubtful <= t.log.doubtful
    ensures Placed(o, clock, t, hand)
  {
    forall i | 0 <= i < |t.queue|
      ensures IsQueued(t, hand, t.queue[i])
    {
      assert IsQueued(s, hand, s.queue[i]);
    }
  }

  lemma {:induction false} EmittedFromPlaces(o: Options, clock: Clock, s: State, i: nat, all: bool, hand: set<nat>)
    requires Placed(o, clock, s, hand)
    ensures Placed(o, clock, EmittedFrom(o, clock, s, i, all), hand) && Extends(s, EmittedFrom(o, clock, s, i, all))
    decreases |s.losses| - i
  {
    hide Placed, EmittedOne;
    if i < |s.losses| {
      var checked := if all then s else s.(tick := s.tick + 1);
      SamePlaces(o, clock, s, checked, hand);
      if !all && s.losses[i].start + o.lossWindowMs > clock(s.tick) {
        EmittedFromPlaces(o, clock, checked, i + 1, all, hand);
      } else {
        EmittedOnePlaces(o, clock, checked, i, hand);
        FewerLosses(o, clock, checked, i);
        EmittedFromPlaces(o, clock, EmittedOne(o, clock, checked, i), i, all, hand);
      }
    }
  }

  lemma FewerLosses(o: Options, clock: Clock, s: State, i: nat)
    requires i < |s.losses|
    ensures |EmittedOne(o, clock, s, i).losses| == |s.losses| - 1
  {
  }

  lemma EmittedPlaces(o: Options, clock: Clock, s: State, all: bool, hand: set<nat>)
    requires o.Valid() && Placed(o, clock, s, hand)
    ensures Placed(o, clock, Emitted(o, clock, s, all), hand) && Extends(s, Emitted(o, clock, s, all))
  {
    hide Placed, EmittedFrom, AtLeast, Options.Window;
    var through := Some(AtLeast(s.closedThrough, o.Window(clock(s.tick)) + o.lossWindowMs));
    var begun := if all then s.(closedThrough := through, tick := s.tick + 1) else s;
    SamePlaces(o, clock, s, begun, hand);
    EmittedFromPlaces(o, clock, begun, 0, all, hand);
  }

  lemma AccountedPlaces(o: Options, clock: Clock, s: State, e: Entry, reason: string, hand: set<nat>)
    requires o.Valid() && Placed(o, clock, s, hand) && e.serial in hand
    requires |s.log.records| == s.log.entries && e.serial < s.log.entries
    requires RightFate(o, clock, s.log.records[e.serial], Dropped(reason, e, |s.queue|, s.tick))
    requires (reason == "closeTimeout" ==> s.finished) && (e.ambiguous ==> e.serial in s.log.doubtful)
    ensures Placed(o, clock, Accounted(o, clock, s, e, reason), hand - {e.serial})
    ensures Extends(s, Accounted(o, clock, s, e, reason))
  {
    hide Placed, Emitted, Counted, Evicted, Starts;
    var f := Forfeited(s, e, reason);
    ForfeitedPlaces(o, clock, s, e, reason, hand);
    if e.record.kind != LOST_KIND {
      var m := Emitted(o, clock, f, false);
      EmittedPlaces(o, clock, f, false, hand - {e.serial});
      SamePlaces(o, clock, m, Charged(o, clock, m, e), hand - {e.serial});
    }
  }

  /** The entries are those that were made. */
  ghost predicate AreMade(es: seq<Entry>, s: State) {
    forall i :: 0 <= i < |es| ==>
      && es[i].serial < |s.log.records| && es[i].record == s.log.records[es[i].serial]
      && (es[i].ambiguous ==> es[i].serial in s.log.doubtful)
  }

  lemma {:induction false} AccountedAllPlaces(o: Options, clock: Clock, s: State, es: seq<Entry>)
    requires o.Valid() && Placed(o, clock, s, Serials(es)) && DistinctSerials(es) && AreMade(es, s) && s.finished
    ensures Placed(o, clock, AccountedAll(o, clock, s, es, "closeTimeout"), {})
    ensures AccountedAll(o, clock, s, es, "closeTimeout").finished
    decreases |es|
  {
    hide Placed, Accounted;
    if es != [] {
      SerialsCons(es);
      HandIsMade(o, clock, s, Serials(es), es[0].serial);
      AccountedPlaces(o, clock, s, es[0], "closeTimeout", Serials(es));
      assert forall i :: 0 <= i < |es[1..]| ==> es[1..][i] == es[i + 1];
      assert Serials(es) - {es[0].serial} == Serials(es[1..]);
      AccountedAllPlaces(o, clock, Accounted(o, clock, s, es[0], "closeTimeout"), es[1..]);
    } else {
      assert Serials(es) == {};
    }
  }

  lemma HandIsMade(o: Options, clock: Clock, s: State, hand: set<nat>, x: nat)
    requires Placed(o, clock, s, hand) && x in hand
    ensures |s.log.records| == s.log.entries && x < s.log.entries
  {
  }

  /** A new entry is queued, or dropped when the queue is at its limit. */
  lemma TakenPlaces(o: Options, clock: Clock, s: State, input: Input)
    requires o.Valid() && input.Snapshot? && Placed(o, clock, s, {})
    ensures Placed(o, clock, Taken(o, clock, s, input), {})
  {
    hide Placed, Accounted;
    var dated := if input.at.Some? then s else s.(tick := s.tick + 1);
    var record := UsageRecord(Given(input.id), if input.at.Some? then input.at.value else clock(s.tick),
                              input.session, input.kind, input.evidence);
    var e := Entry(s.log.entries, record, clock(dated.tick), false, 0);
    var made := dated.(tick := dated.tick + 1, log := Made(dated.log, record));
    var hand: set<nat> := {};
    MadePlaces(o, clock, s, made, record, hand);
    NotYetInHand(o, clock, made, hand + {e.serial});
    assert (hand + {e.serial}) - {e.serial} == {};
    if |made.queue| >= o.queueLimit {
      AccountedPlaces(o, clock, made, e, "overflow", hand + {e.serial});
    } else {
      QueuedPlaces(o, clock, made, e, hand + {e.serial});
    }
  }

  /** The k-th entry, perhaps marked, is taken out and given up on. */
  lemma OutPlaces(o: Options, clock: Clock, s: State, k: nat, e: Entry)
    requires o.Valid() && Placed(o, clock, s, {}) && k < |s.queue|
    requires e.serial == s.queue[k].serial && e.record == s.queue[k].record
    requires e.attempts > 0 && s.tick > 0 && clock(s.tick - 1) - e.since >= o.retryWindowMs
    requires e.ambiguous ==> e.serial in s.log.doubtful
    ensures Placed(o, clock, Accounted(o, clock, s.(queue := s.queue[..k] + s.queue[k + 1..]), e, "retryWindow"), {})
  {
    var out := s.(queue := s.queue[..k] + s.queue[k + 1..]);
    TakenOutPlaces(o, clock, s, k);
    QueueIsMade(o, clock, s);
    hide Placed, Accounted;
    HandIsMade(o, clock, out, {e.serial}, e.serial);
    AccountedPlaces(o, clock, out, e, "retryWindow", {e.serial});
    assert {e.serial} - {e.serial} == {};
  }

  lemma QueueIsMade(o: Options, clock: Clock, s: State)
    requires Placed(o, clock, s, {})
    ensures AreMade(s.queue, s)
  {
    forall i | 0 <= i < |s.queue|
      ensures s.queue[i].serial < |s.log.records| && s.queue[i].record == s.log.records[s.queue[i].serial]
      ensures s.queue[i].ambiguous ==> s.queue[i].serial in s.log.doubtful
    {
      assert IsQueued(s, {}, s.queue[i]);
    }
  }

  lemma TakenOutPlaces(o: Options, clock: Clock, s: State, k: nat)
    requires Placed(o, clock, s, {}) && k < |s.queue|
    ensures Placed(o, clock, s.(queue := s.queue[..k] + s.queue[k + 1..]), {s.queue[k].serial})
  {
    var t, e := s.(queue := s.queue[..k] + s.queue[k + 1..]), s.queue[k];
    assert forall i :: 0 <= i < |t.queue| ==> t.queue[i] == s.queue[if i < k then i else i + 1];
    assert IsQueued(s, {}, e);
    forall i | 0 <= i < |t.queue|
      ensures IsQueued(t, {e.serial}, t.queue[i])
    {
      assert IsQueued(s, {}, s.queue[if i < k then i else i + 1]);
    }
    SerialsOut(s.queue, k);
    hide Serials, RightFate, RightLoss;
  }

  lemma SerialsOut(q: seq<Entry>, k: nat)
    requires k < |q|
    ensures forall x :: x in Serials(q) ==> x == q[k].serial || x in Serials(q[..k] + q[k + 1..])
  {
    var r := q[..k] + q[k + 1..];
    forall x | x in Serials(q) && x != q[k].serial
      ensures x in Serials(r)
    {
      var f :| f in q && f.serial == x;
      var i :| 0 <= i < |q| && q[i] == f;
      assert r[if i < k then i else i - 1] == f;
    }
  }

  /** An entry changes its marks and keeps its place. */
  lemma MarkPlaces(o: Options, clock: Clock, s: State, k: nat, e: Entry)
    requires Placed(o, clock, s, {}) && k < |s.queue| && e.serial == s.queue[k].serial && e.record == s.queue[k].record
    requires e.ambiguous ==> e.serial in s.log.doubtful
    ensures Placed(o, clock, s.(queue := s.queue[k := e]), {})
  {
    var t := s.(queue := s.queue[k := e]);
    forall i | 0 <= i < |t.queue|
      ensures IsQueued(t, {}, t.queue[i])
    {
      assert IsQueued(s, {}, s.queue[i]);
    }
    SameSerials(s.queue, t.queue);
  }

  lemma SameSerials(a: seq<Entry>, b: seq<Entry>)
    requires |a| == |b| && forall i :: 0 <= i < |a| ==> a[i].serial == b[i].serial
    ensures Serials(a) == Serials(b)
  {
    forall x
      ensures x in Serials(a) <==> x in Serials(b)
    {
      if x in Serials(a) {
        var i :| 0 <= i < |a| && a[i].serial == x;
        assert b[i] in b;
      }
      if x in Serials(b) {
        var i :| 0 <= i < |b| && b[i].serial == x;
        assert a[i] in a;
      }
    }
  }

  lemma {:induction false} ExpiredPlaces(o: Options, clock: Clock, s: State, k: nat, n: nat)
    requires o.Valid() && Placed(o, clock, s, {})
    ensures Placed(o, clock, Expired(o, clock, s, k, n), {})
    decreases n
  {
    hide Placed, Accounted;
    if n > 0 && k < |s.queue| {
      var e := s.queue[k];
      var read := s.(tick := s.tick + 1);
      SamePlaces(o, clock, s, read, {});
      QueueIsMade(o, clock, s);
      if e.attempts > 0 && clock(s.tick) - e.since >= o.retryWindowMs {
        OutPlaces(o, clock, read, k, e);
        var out := read.(queue := s.queue[..k] + s.queue[k + 1..]);
        ExpiredPlaces(o, clock, Accounted(o, clock, out, e, "retryWindow"), k, n - 1);
      } else {
        ExpiredPlaces(o, clock, if e.attempts == 0 then s else read, k + 1, n - 1);
      }
    }
  }

  /** Entries from `k` on may be stored by the attempt that failed. */
  ghost predicate AllDoubtful(s: State, k: nat, n: nat) {
    forall i :: k <= i < k + n && i < |s.queue| ==> s.queue[i].serial in s.log.doubtful
  }

  lemma {:induction false} MarkedPlaces(o: Options, clock: Clock, s: State, k: nat, n: nat, ambiguous: bool)
    requires o.Valid() && Placed(o, clock, s, {}) && k + n <= |s.queue| && (ambiguous ==> AllDoubtful(s, k, n))
    ensures Placed(o, clock, Marked(o, clock, s, k, n, ambiguous), {})
    decreases n
  {
    hide Placed, Accounted, Serials, RightFate;
    if n > 0 {
      var e := s.queue[k].(ambiguous := s.queue[k].ambiguous || ambiguous, attempts := s.queue[k].attempts + 1);
      var read := s.(tick := s.tick + 1);
      SamePlaces(o, clock, s, read, {});
      QueueIsMade(o, clock, s);
      if clock(s.tick) - e.since >= o.retryWindowMs {
        OutPlaces(o, clock, read, k, e);
        OutIsDoubtful(o, clock, read, k, n, e);
        hide AllDoubtful;
        MarkedPlaces(o, clock, Accounted(o, clock, read.(queue := s.queue[..k] + s.queue[k + 1..]), e, "retryWindow"),
                     k, n - 1, ambiguous);
      } else {
        MarkPlaces(o, clock, read, k, e);
        MarkedPlaces(o, clock, read.(queue := s.queue[k := e]), k + 1, n - 1, ambiguous);
      }
    }
  }

  lemma OutIsDoubtful(o: Options, clock: Clock, s: State, k: nat, n: nat, e: Entry)
    requires o.Valid() && n > 0 && k + n <= |s.queue|
    ensures var t := Accounted(o, clock, s.(queue := s.queue[..k] + s.queue[k + 1..]), e, "retryWindow");
      k + n - 1 <= |t.queue| && (AllDoubtful(s, k, n) ==> AllDoubtful(t, k, n - 1))
  {
    hide Accounted;
    var out := s.(queue := s.queue[..k] + s.queue[k + 1..]);
    var t := Accounted(o, clock, out, e, "retryWindow");
    AccountedAppends(o, clock, out, e, "retryWindow");
    assert forall i :: k <= i < k + n - 1 ==> t.queue[i] == out.queue[i] == s.queue[i + 1];
  }

  /** Accounting for an entry may add loss records to the queue and removes nothing from it. */
  lemma AccountedAppends(o: Options, clock: Clock, s: State, e: Entry, reason: string)
    requires o.Valid()
    ensures var t := Accounted(o, clock, s, e, reason); s.queue <= t.queue && t.log.doubtful == s.log.doubtful
  {
    hide Emitted, Counted, Evicted, Starts;
    EmittedAppends(o, clock, Forfeited(s, e, reason), false);
  }

  lemma EmittedAppends(o: Options, clock: Clock, s: State, all: bool)
    requires o.Valid()
    ensures var t := Emitted(o, clock, s, all); s.queue <= t.queue && t.log.doubtful == s.log.doubtful
  {
    hide EmittedFrom, AtLeast, Options.Window;
    var through := Some(AtLeast(s.closedThrough, o.Window(clock(s.tick)) + o.lossWindowMs));
    EmittedFromAppends(o, clock, if all then s.(closedThrough := through, tick := s.tick + 1) else s, 0, all);
  }

  lemma {:induction false} EmittedFromAppends(o: Options, clock: Clock, s: State, i: nat, all: bool)
    ensures var t := EmittedFrom(o, clock, s, i, all); s.queue <= t.queue && t.log.doubtful == s.log.doubtful
    decreases |s.losses| - i
  {
    hide EmittedOne;
    if i < |s.losses| {
      var checked := if all then s else s.(tick := s.tick + 1);
      if !all && s.losses[i].start + o.lossWindowMs > clock(s.tick) {
        EmittedFromAppends(o, clock, checked, i + 1, all);
      } else {
        EmittedOneAppends(o, clock, checked, i);
        EmittedFromAppends(o, clock, EmittedOne(o, clock, checked, i), i, all);
      }
    }
  }

  lemma EmittedOneAppends(o: Options, clock: Clock, s: State, i: nat)
    requires i < |s.losses|
    ensures var t := EmittedOne(o, clock, s, i);
      s.queue <= t.queue && t.log.doubtful == s.log.doubtful && |t.losses| == |s.losses| - 1
  {
  }

  /** The front of the queue leaves it; no serial is in both parts. */
  lemma SerialsSplit(q: seq<Entry>, n: nat)
    requires DistinctSerials(q) && n <= |q|
    ensures DistinctSerials(q[n..]) && Serials(q) == Serials(q[..n]) + Serials(q[n..])
    ensures Serials(q[..n]) !! Serials(q[n..])
  {
    var b, r := q[..n], q[n..];
    assert q == b + r;
    forall x | x in Serials(b)
      ensures x !in Serials(r)
    {
      var i :| 0 <= i < |b| && b[i].serial == x;
      forall f | f in r
        ensures f.serial != x
      {
        var j :| 0 <= j < |r| && r[j] == f;
        assert q[i].serial != q[n + j].serial;
      }
    }
    assert forall f :: f in q <==> f in b || f in r;
  }

  lemma QueuedIsMade(o: Options, clock: Clock, s: State, x: nat)
    requires Placed(o, clock, s, {}) && x in Serials(s.queue)
    ensures x < s.log.entries && x !in s.log.fates
  {
    var i :| 0 <= i < |s.queue| && s.queue[i].serial == x;
    assert IsQueued(s, {}, s.queue[i]);
  }

  lemma SendSucceededPlaces(o: Options, clock: Clock, s: State)
    requires Placed(o, clock, s, {})
    ensures Placed(o, clock, SendSucceeded(s), {})
  {
    if s.finished {
      SamePlaces(o, clock, s, SendSucceeded(s), {});
    } else {
      var n := |Batch(s)|;
      SerialsSplit(s.queue, n);
      assert Batch(s) == s.queue[..n];
      forall x | x in Serials(s.queue[..n])
        ensures x < s.log.entries && x !in s.log.fates
      {
        QueuedIsMade(o, clock, s, x);
      }
      hide Serials, DistinctSerials, Batch;
      AcknowledgedPlaces(o, clock, s, n, SendSucceeded(s));
    }
  }

  lemma AcknowledgedPlaces(o: Options, clock: Clock, s: State, n: nat, t: State)
    requires Placed(o, clock, s, {}) && n <= |s.queue| && DistinctSerials(s.queue[n..])
    requires Serials(s.queue) == Serials(s.queue[..n]) + Serials(s.queue[n..])
    requires Serials(s.queue[..n]) !! Serials(s.queue[n..])
    requires forall x :: x in Serials(s.queue[..n]) ==> x < s.log.entries && x !in s.log.fates
    requires t.queue == s.queue[n..] && t.finished == s.finished
    requires t.log == s.log.(fates := s.log.fates + map x | x in Serials(s.queue[..n]) :: Acknowledged)
    ensures Placed(o, clock, t, {})
  {
    hide DistinctSerials, Serials, RightFate;
    forall i | 0 <= i < |t.queue|
      ensures IsQueued(t, {}, t.queue[i])
    {
      assert IsQueued(s, {}, s.queue[n + i]);
      SerialIn(t.queue, i);
    }
    AcknowledgedRight(o, clock, s, t, Serials(s.queue[..n]));
  }

  lemma AcknowledgedRight(o: Options, clock: Clock, s: State, t: State, sent: set<nat>)
    requires Placed(o, clock, s, {}) && (forall x :: x in sent ==> x < s.log.entries && x !in s.log.fates)
    requires t.log == s.log.(fates := s.log.fates + map x | x in sent :: Acknowledged)
    ensures forall x :: x in t.log.fates ==> x < s.log.entries && RightFate(o, clock, s.log.records[x], t.log.fates[x])
    ensures forall x :: x in t.log.fates <==> x in s.log.fates || x in sent
    ensures forall x :: x in t.log.fates && t.log.fates[x].Dropped? ==>
      x in s.log.fates && s.log.fates[x] == t.log.fates[x]
    ensures forall x :: x in s.log.fates ==> x in t.log.fates && t.log.fates[x] == s.log.fates[x]
  {
  }

  lemma SerialIn(es: seq<Entry>, i: nat)
    requires i < |es|
    ensures es[i].serial in Serials(es)
  {
    assert es[i] in es;
  }

  lemma CloseFinishedPlaces(o: Options, clock: Clock, s: State)
    requires o.Valid() && Placed(o, clock, s, {}) && s.inFlight <= |s.queue|
    ensures Placed(o, clock, CloseFinished(o, clock, s), {})
  {
    hide Placed, AccountedAll, Emitted;
    var es := MarkedAmbiguous(s.queue, s.inFlight);
    MarkedAmbiguousIs(s.queue, s.inFlight);
    SameSerials(es, s.queue);
    Distinct(o, clock, s);
    QueueIsMade(o, clock, s);
    var closed := s.(finished := true, queue := [],
                     log := s.log.(doubtful := s.log.doubtful + Serials(Batch(s))));
    BatchSerials(s);
    EmptiedPlaces(o, clock, s, closed);
    AccountedAllPlaces(o, clock, closed, es);
    var m := AccountedAll(o, clock, closed, es, "closeTimeout");
    EmittedPlaces(o, clock, m, true, {});
    var first := Emitted(o, clock, m, true);
    Distinct(o, clock, first);
    QueueIsMade(o, clock, first);
    EmptiedPlaces(o, clock, first, first.(queue := []));
    AccountedAllPlaces(o, clock, first.(queue := []), first.queue);
  }

  lemma Distinct(o: Options, clock: Clock, s: State)
    requires Placed(o, clock, s, {})
    ensures DistinctSerials(s.queue)
  {
  }

  /** The whole queue is in hand. */
  lemma EmptiedPlaces(o: Options, clock: Clock, s: State, t: State)
    requires Placed(o, clock, s, {}) && t.queue == []
    requires t.log.entries == s.log.entries && t.log.records == s.log.records && t.log.fates == s.log.fates
    requires t.log.generated == s.log.generated && (s.finished ==> t.finished)
    requires t.log.definite == s.log.definite && s.log.doubtful <= t.log.doubtful
    ensures Placed(o, clock, t, Serials(s.queue))
  {
    forall x | x in Serials(s.queue)
      ensures x < s.log.entries && x !in s.log.fates
    {
      var i :| 0 <= i < |s.queue| && s.queue[i].serial == x;
      assert IsQueued(s, {}, s.queue[i]);
    }
  }

  lemma NextPlaces(o: Options, clock: Clock, s: State, a: Action)
    requires o.Valid() && Placed(o, clock, s, {}) && Enabled(s, a) && (!s.finished ==> s.inFlight <= |s.queue|)
    ensures Placed(o, clock, Next(o, clock, s, a), {})
  {
    hide Placed, Emitted, Expired, Marked, CloseFinished, SendSucceeded, Taken;
    match a {
      case Record(input) =>
        if s.accepting {
          var called := s.(log := s.log.(calls := s.log.calls + 1));
          SamePlaces(o, clock, s, called, {});
          EmittedPlaces(o, clock, called, false, {});
          var n := Emitted(o, clock, called, false);
          if input.Invalid? {
            SamePlaces(o, clock, n, Next(o, clock, s, a), {});
          } else {
            TakenPlaces(o, clock, n, input);
          }
        }
      case Flush(draining) => EmittedPlaces(o, clock, s, draining, {});
      case SendBegin(due) =>
        ExpiredPlaces(o, clock, s, 0, |s.queue|);
        SamePlaces(o, clock, Expired(o, clock, s, 0, |s.queue|), Next(o, clock, s, a), {});
      case Store(serial) => SamePlaces(o, clock, s, Next(o, clock, s, a), {});
      case StoreLate(serial) => SamePlaces(o, clock, s, Next(o, clock, s, a), {});
      case SendOk => SendSucceededPlaces(o, clock, s);
      case SendFail(ambiguous) => SendFailedPlaces(o, clock, s, ambiguous);
      case CloseBegin =>
        SamePlaces(o, clock, s, s.(accepting := false), {});
        EmittedPlaces(o, clock, s.(accepting := false), true, {});
      case CloseFinish => CloseFinishedPlaces(o, clock, s);
    }
  }

  lemma SendFailedPlaces(o: Options, clock: Clock, s: State, ambiguous: bool)
    requires o.Valid() && Placed(o, clock, s, {}) && (!s.finished ==> s.inFlight <= |s.queue|)
    ensures Placed(o, clock, SendFailed(o, clock, s, ambiguous), {})
  {
    hide Placed, Emitted, Marked;
    if s.finished {
      SamePlaces(o, clock, s, SendFailed(o, clock, s, ambiguous), {});
    } else {
      SamePlaces(o, clock, s, Refused(s, ambiguous), {});
      Distinct(o, clock, s);
      BatchSerials(s);
      MarkedPlaces(o, clock, Refused(s, ambiguous), 0, s.inFlight, ambiguous);
      var n := Marked(o, clock, Refused(s, ambiguous), 0, s.inFlight, ambiguous);
      if !n.hung { EmittedPlaces(o, clock, n, !n.accepting, {}); }
    }
  }

  lemma {:induction false} RunsPlace(o: Options, clock: Clock, s: State, steps: seq<Action>)
    requires o.Valid() && Inv(o, s) && Placed(o, clock, s, {}) && Legal(o, clock, s, steps)
    ensures Inv(o, After(o, clock, s, steps)) && Placed(o, clock, After(o, clock, s, steps), {})
    decreases |steps|
  {
    hide Next, Placed, Ok;
    if steps != [] {
      NextPlaces(o, clock, s, steps[0]);
      NextKeeps(o, clock, s, steps[0]);
      hide Inv;
      RunsPlace(o, clock, Next(o, clock, s, steps[0]), steps[1..]);
    }
  }

  lemma NothingMade(o: Options, clock: Clock)
    ensures Placed(o, clock, INITIAL, {}) && Inv(o, INITIAL)
  {
  }

  /** In every run each entry made, call or loss record, is in exactly one place: in the queue, with the
      record it was made for, or acknowledged, or given up on. It is given up on because the queue was
      full: `queueLimit` entries for a call, and for a loss record `queueLimit` and the reserve; or
      because it had been sent and its retry window had passed; or because the recorder was closed. It
      is a definite loss unless an attempt may have stored it. */
  lemma EveryEntryHasItsPlace(o: Options, clock: Clock, steps: seq<Action>, x: nat)
    requires o.Valid() && Legal(o, clock, INITIAL, steps) && x < After(o, clock, INITIAL, steps).log.entries
    ensures var s := After(o, clock, INITIAL, steps);
      && |s.log.records| == s.log.entries
      && (x in Serials(s.queue) <==> x !in s.log.fates)
      && (forall i :: 0 <= i < |s.queue| && s.queue[i].serial == x ==> s.queue[i].record == s.log.records[x])
      && (x in s.log.fates && s.log.fates[x].Dropped? ==>
            && RightFate(o, clock, s.log.records[x], s.log.fates[x])
            && (s.log.fates[x].reason == "closeTimeout" ==> s.finished)
            && (x in s.log.definite || x in s.log.doubtful))
      && (x in s.log.definite ==> x in s.log.fates && s.log.fates[x].Dropped? && !s.log.fates[x].entry.ambiguous)
  {
    NothingMade(o, clock);
    RunsPlace(o, clock, INITIAL, steps);
    var s := After(o, clock, INITIAL, steps);
    if x in Serials(s.queue) {
      var i :| 0 <= i < |s.queue| && s.queue[i].serial == x;
      assert IsQueued(s, {}, s.queue[i]);
    }
    forall i | 0 <= i < |s.queue| && s.queue[i].serial == x
      ensures s.queue[i].record == s.log.records[x]
    {
      assert IsQueued(s, {}, s.queue[i]);
    }
  }

  /** Every loss record generated is the record of such an entry. */
  lemma LossRecordsAreEntries(o: Options, clock: Clock, steps: seq<Action>, k: nat) returns (x: nat)
    requires o.Valid() && Legal(o, clock, INITIAL, steps) && k < |After(o, clock, INITIAL, steps).log.generated|
    ensures var log := After(o, clock, INITIAL, steps).log;
      x < log.entries == |log.records| && log.records[x] == log.generated[k] && log.generated[k].id.LostId?
  {
    NothingMade(o, clock);
    RunsPlace(o, clock, INITIAL, steps);
    var log := After(o, clock, INITIAL, steps).log;
    assert log.generated[k] in log.records;
    x :| 0 <= x < |log.records| && log.records[x] == log.generated[k];
  }

  // ---------------------------------------------------------------------------------------
  // When every attempt succeeds.
  // ---------------------------------------------------------------------------------------

  /** What a step that removes nothing may do: add entries that were never sent, and drop entries while
      the queue is at most as long as it is in the end. */
  ghost predicate OnlyOverflows(s: State, t: State) {
    && s.queue <= t.queue && s.log.records <= t.log.records
    && (forall i :: |s.queue| <= i < |t.queue| ==> t.queue[i].attempts == 0)
    && (forall x :: x in s.log.fates ==> x in t.log.fates && t.log.fates[x] == s.log.fates[x])
    && (forall x :: x in t.log.fates && x !in s.log.fates ==> FromOverflow(t.log.fates[x], |t.queue|))
  }

  predicate FromOverflow(fate: Fate, length: nat) {
    fate.Dropped? && fate.reason == "overflow" && fate.queued <= length
  }

  lemma OverflowsTwice(s: State, t: State, u: State)
    requires OnlyOverflows(s, t) && OnlyOverflows(t, u)
    ensures OnlyOverflows(s, u)
  {
    forall i | |s.queue| <= i < |u.queue|
      ensures u.queue[i].attempts == 0
    {
      if i < |t.queue| { assert u.queue[i] == t.queue[i]; }
    }
    forall x | x in u.log.fates && x !in s.log.fates
      ensures FromOverflow(u.log.fates[x], |u.queue|)
    {
      if x in t.log.fates { assert FromOverflow(t.log.fates[x], |t.queue|); }
    }
  }

  lemma SameOverflows(s: State, t: State)
    requires t.queue == s.queue && t.log.records == s.log.records && t.log.fates == s.log.fates
    ensures OnlyOverflows(s, t)
  {
  }

  lemma EmittedOneOverflows(o: Options, clock: Clock, s: State, i: nat)
    requires i < |s.losses| && Placed(o, clock, s, {})
    ensures OnlyOverflows(s, EmittedOne(o, clock, s, i))
  {
    NotYetInHand(o, clock, s, {});
    NotYetFated(o, clock, s, {});
  }

  lemma NotYetFated(o: Options, clock: Clock, s: State, hand: set<nat>)
    requires Placed(o, clock, s, hand)
    ensures s.log.entries !in s.log.fates
  {
  }

  lemma {:induction false} EmittedFromOverflows(o: Options, clock: Clock, s: State, i: nat, all: bool)
    requires Placed(o, clock, s, {})
    ensures OnlyOverflows(s, EmittedFrom(o, clock, s, i, all))
    decreases |s.losses| - i
  {
    hide Placed, EmittedOne, OnlyOverflows;
    var t := EmittedFrom(o, clock, s, i, all);
    SameOverflows(s, s);
    if i < |s.losses| {
      var checked := if all then s else s.(tick := s.tick + 1);
      SamePlaces(o, clock, s, checked, {});
      SameOverflows(s, checked);
      if !all && s.losses[i].start + o.lossWindowMs > clock(s.tick) {
        EmittedFromOverflows(o, clock, checked, i + 1, all);
      } else {
        EmittedOnePlaces(o, clock, checked, i, {});
        FewerLosses(o, clock, checked, i);
        EmittedOneOverflows(o, clock, checked, i);
        EmittedFromOverflows(o, clock, EmittedOne(o, clock, checked, i), i, all);
        OverflowsTwice(checked, EmittedOne(o, clock, checked, i), t);
      }
      OverflowsTwice(s, checked, t);
    }
  }

  lemma EmittedOverflows(o: Options, clock: Clock, s: State, all: bool)
    requires o.Valid() && Placed(o, clock, s, {})
    ensures OnlyOverflows(s, Emitted(o, clock, s, all))
  {
    hide Placed, EmittedFrom, AtLeast, Options.Window, OnlyOverflows;
    var through := Some(AtLeast(s.closedThrough, o.Window(clock(s.tick)) + o.lossWindowMs));
    var begun := if all then s.(closedThrough := through, tick := s.tick + 1) else s;
    SamePlaces(o, clock, s, begun, {});
    SameOverflows(s, begun);
    EmittedFromOverflows(o, clock, begun, 0, all);
    OverflowsTwice(s, begun, Emitted(o, clock, s, all));
  }

  lemma ForfeitedOverflows(o: Options, clock: Clock, s: State, e: Entry, hand: set<nat>)
    requires Placed(o, clock, s, hand) && e.serial in hand
    ensures OnlyOverflows(s, Forfeited(s, e, "overflow"))
  {
  }

  lemma AccountedOverflows(o: Options, clock: Clock, s: State, e: Entry)
    requires o.Valid() && Placed(o, clock, s, {e.serial})
    requires |s.log.records| == s.log.entries && e.serial < s.log.entries
    requires RightFate(o, clock, s.log.records[e.serial], Dropped("overflow", e, |s.queue|, s.tick)) && !e.ambiguous
    ensures OnlyOverflows(s, Accounted(o, clock, s, e, "overflow"))
  {
    hide OnlyOverflows, Placed, Emitted, Charged, Forfeited;
    var f := Forfeited(s, e, "overflow");
    ForfeitedOverflows(o, clock, s, e, {e.serial});
    if e.record.kind != LOST_KIND {
      ForfeitedPlaces(o, clock, s, e, "overflow", {e.serial});
      assert {e.serial} - {e.serial} == {};
      EmittedOverflows(o, clock, f, false);
      var m := Emitted(o, clock, f, false);
      SameCharged(o, clock, m, e);
      OverflowsTwice(s, f, m);
      OverflowsTwice(s, m, Charged(o, clock, m, e));
    }
  }

  lemma TakenOverflows(o: Options, clock: Clock, s: State, input: Input)
    requires o.Valid() && input.Snapshot? && Placed(o, clock, s, {})
    ensures OnlyOverflows(s, Taken(o, clock, s, input))
  {
    hide OnlyOverflows, Placed, Accounted;
    var dated := if input.at.Some? then s else s.(tick := s.tick + 1);
    var record := UsageRecord(Given(input.id), if input.at.Some? then input.at.value else clock(s.tick),
                              input.session, input.kind, input.evidence);
    var e := Entry(s.log.entries, record, clock(dated.tick), false, 0);
    var made := dated.(tick := dated.tick + 1, log := Made(dated.log, record));
    var hand: set<nat> := {};
    MadePlaces(o, clock, s, made, record, hand);
    assert hand + {e.serial} == {e.serial};
    HandIsMade(o, clock, made, {e.serial}, e.serial);
    MadeOverflows(s, made, record, e);
    if |made.queue| >= o.queueLimit {
      AccountedOverflows(o, clock, made, e);
      OverflowsTwice(s, made, Accounted(o, clock, made, e, "overflow"));
    } else {
      assert Taken(o, clock, s, input) == made.(queue := made.queue + [e]);
    }
  }

  lemma MadeOverflows(s: State, made: State, record: UsageRecord, e: Entry)
    requires made.queue == s.queue && made.log == Made(s.log, record) && e.attempts == 0
    ensures OnlyOverflows(s, made) && OnlyOverflows(s, made.(queue := made.queue + [e]))
  {
  }

  lemma SameCharged(o: Options, clock: Clock, s: State, e: Entry)
    requires o.Valid()
    ensures OnlyOverflows(s, Charged(o, clock, s, e))
  {
    hide Counted, Evicted, Starts;
  }

  /** The attempts of the run succeed, the queue never reaches the limit and the reserve together, and
      `close()` ends when everything is sent. */
  predicate Delivers(o: Options, clock: Clock, s: State, steps: seq<Action>)
    requires o.Valid() && Legal(o, clock, s, steps)
    decreases |steps|
  {
    steps == [] ||
    (&& !steps[0].SendFail? && (steps[0].CloseFinish? ==> s.queue == [] && s.losses == [])
     && |Next(o, clock, s, steps[0]).queue| < o.Capacity()
     && Delivers(o, clock, Next(o, clock, s, steps[0]), steps[1..]))
  }

  /** No loss record was dropped, and nothing in the queue was ever sent in vain. */
  ghost predicate NoneDropped(s: State) {
    && (forall i :: 0 <= i < |s.queue| ==> s.queue[i].attempts == 0)
    && (forall x :: x in s.log.fates && x < |s.log.records| && s.log.records[x].id.LostId? ==>
          s.log.fates[x] == Acknowledged)
  }

  lemma OverflowsNone(o: Options, clock: Clock, s: State, t: State)
    requires Placed(o, clock, s, {}) && Placed(o, clock, t, {}) && NoneDropped(s)
    requires OnlyOverflows(s, t) && |t.queue| < o.Capacity()
    ensures NoneDropped(t)
  {
    forall i | 0 <= i < |t.queue|
      ensures t.queue[i].attempts == 0
    {
      if i < |s.queue| { assert t.queue[i] == s.queue[i]; }
    }
    forall x | x in t.log.fates && x !in s.log.fates
      ensures x < |t.log.records| && !t.log.records[x].id.LostId?
    {
      RoomForEvidence(o, clock, t.log.records[x], t.log.fates[x], |t.queue|);
    }
    forall x | x in s.log.fates
      ensures x < |s.log.records| && t.log.records[x] == s.log.records[x] && t.log.fates[x] == s.log.fates[x]
    {
    }
  }

  /** A loss record is not dropped while there is room. */
  lemma RoomForEvidence(o: Options, clock: Clock, r: UsageRecord, fate: Fate, length: nat)
    requires RightFate(o, clock, r, fate) && FromOverflow(fate, length) && length < o.Capacity()
    ensures !r.id.LostId?
  {
  }

  /** Nothing expires that was never sent. */
  lemma {:induction false} NothingExpires(o: Options, clock: Clock, s: State, k: nat, n: nat)
    requires o.Valid() && forall i :: 0 <= i < |s.queue| ==> s.queue[i].attempts == 0
    ensures Expired(o, clock, s, k, n) == s
    decreases n
  {
    if n > 0 && k < |s.queue| {
      NothingExpires(o, clock, s, k + 1, n - 1);
    }
  }

  lemma SentNone(o: Options, clock: Clock, s: State)
    requires Placed(o, clock, s, {}) && NoneDropped(s)
    ensures NoneDropped(SendSucceeded(s))
  {
    hide Placed, Serials;
    assert forall i :: 0 <= i < |SendSucceeded(s).queue| ==>
      SendSucceeded(s).queue[i] == s.queue[i + |s.queue| - |SendSucceeded(s).queue|];
  }

  lemma ClosedEmpty(o: Options, clock: Clock, s: State)
    requires o.Valid() && s.queue == [] && s.losses == []
    ensures var t := CloseFinished(o, clock, s);
      && t.queue == [] && t.log.records == s.log.records && t.log.fates == s.log.fates
      && t.log.generated == s.log.generated
  {
  }

  lemma StepDrops(o: Options, clock: Clock, s: State, a: Action)
    requires o.Valid() && Placed(o, clock, s, {}) && NoneDropped(s) && Enabled(s, a) && !a.SendFail?
    requires !s.finished ==> s.inFlight <= |s.queue|
    requires a.CloseFinish? ==> s.queue == [] && s.losses == []
    requires |Next(o, clock, s, a).queue| < o.Capacity()
    ensures NoneDropped(Next(o, clock, s, a))
    ensures !a.SendOk? ==> OnlyOverflows(s, Next(o, clock, s, a))
  {
    NextPlaces(o, clock, s, a);
    hide Placed, Emitted, Taken, CloseFinished, SendSucceeded, OnlyOverflows;
    var t := Next(o, clock, s, a);
    match a {
      case Record(input) => RecordedOverflows(o, clock, s, input);
      case Flush(draining) => EmittedOverflows(o, clock, s, draining);
      case SendBegin(due) =>
        NothingExpires(o, clock, s, 0, |s.queue|);
        SameOverflows(s, t);
      case Store(serial) => SameOverflows(s, t);
      case StoreLate(serial) => SameOverflows(s, t);
      case SendOk => SentNone(o, clock, s);
      case CloseBegin =>
        SamePlaces(o, clock, s, s.(accepting := false), {});
        SameOverflows(s, s.(accepting := false));
        EmittedOverflows(o, clock, s.(accepting := false), true);
        OverflowsTwice(s, s.(accepting := false), t);
      case CloseFinish =>
        ClosedEmpty(o, clock, s);
        SameOverflows(s, t);
    }
    if !a.SendOk? {
      OverflowsNone(o, clock, s, t);
    }
  }

  lemma RecordedOverflows(o: Options, clock: Clock, s: State, input: Input)
    requires o.Valid() && Placed(o, clock, s, {})
    ensures OnlyOverflows(s, Recorded(o, clock, s, input))
  {
    hide Placed, Emitted, Taken, OnlyOverflows;
    var t := Recorded(o, clock, s, input);
    SameOverflows(s, s);
    if s.accepting {
      var called := s.(log := s.log.(calls := s.log.calls + 1));
      SamePlaces(o, clock, s, called, {});
      SameOverflows(s, called);
      EmittedPlaces(o, clock, called, false, {});
      EmittedOverflows(o, clock, called, false);
      var n := Emitted(o, clock, called, false);
      OverflowsTwice(s, called, n);
      if input.Invalid? {
        SameOverflows(n, t);
      } else {
        TakenOverflows(o, clock, n, input);
      }
      OverflowsTwice(s, n, t);
    }
  }

  lemma {:induction false} RunsDrop(o: Options, clock: Clock, s: State, steps: seq<Action>)
    requires o.Valid() && Inv(o, s) && Placed(o, clock, s, {}) && NoneDropped(s)
    requires Legal(o, clock, s, steps) && Delivers(o, clock, s, steps)
    ensures NoneDropped(After(o, clock, s, steps))
    decreases |steps|
  {
    hide Next, Placed, NoneDropped, Ok;
    if steps != [] {
      NextPlaces(o, clock, s, steps[0]);
      NextKeeps(o, clock, s, steps[0]);
      StepDrops(o, clock, s, steps[0]);
      hide Inv;
      RunsDrop(o, clock, Next(o, clock, s, steps[0]), steps[1..]);
    }
  }

  /** When every attempt succeeds, the queue never fills up and the recorder is drained before it
      closes, every loss record generated has been acknowledged. */
  lemma LossRecordsAreDelivered(o: Options, clock: Clock, steps: seq<Action>, k: nat) returns (x: nat)
    requires o.Valid() && Legal(o, clock, INITIAL, steps) && Delivers(o, clock, INITIAL, steps)
    requires After(o, clock, INITIAL, steps).queue == [] && k < |After(o, clock, INITIAL, steps).log.generated|
    ensures var log := After(o, clock, INITIAL, steps).log;
      && x < |log.records| && log.records[x] == log.generated[k]
      && x in log.fates && log.fates[x] == Acknowledged
  {
    x := LossRecordsAreEntries(o, clock, steps, k);
    EveryEntryHasItsPlace(o, clock, steps, x);
    NothingMade(o, clock);
    RunsDrop(o, clock, INITIAL, steps);
  }

  // ---------------------------------------------------------------------------------------
  // What a call and a pass over the counters do.
  // ---------------------------------------------------------------------------------------

  /** Between two states exactly one entry was made for a call, and otherwise loss records. */
  ghost predicate OneCall(s: State, t: State, x: nat) {
    && |s.log.records| <= x < |t.log.records| && s.log.records <= t.log.records
    && forall y :: |s.log.records| <= y < |t.log.records| && y != x ==> t.log.records[y].id.LostId?
  }

  ghost predicate OnlyEvidence(s: State, t: State) {
    && s.log.records <= t.log.records
    && forall y :: |s.log.records| <= y < |t.log.records| ==> t.log.records[y].id.LostId?
  }

  lemma {:induction false} EmittedFromMakes(o: Options, clock: Clock, s: State, i: nat, all: bool)
    ensures OnlyEvidence(s, EmittedFrom(o, clock, s, i, all))
    decreases |s.losses| - i
  {
    if i < |s.losses| {
      var checked := if all then s else s.(tick := s.tick + 1);
      if !all && s.losses[i].start + o.lossWindowMs > clock(s.tick) {
        EmittedFromMakes(o, clock, checked, i + 1, all);
      } else {
        EmittedOneMakes(o, clock, checked, i);
        hide EmittedOne;
        EmittedFromMakes(o, clock, EmittedOne(o, clock, checked, i), i, all);
        EvidenceTwice(checked, EmittedOne(o, clock, checked, i), EmittedFrom(o, clock, s, i, all));
      }
    }
  }

  lemma EmittedOneMakes(o: Options, clock: Clock, s: State, i: nat)
    requires i < |s.losses|
    ensures OnlyEvidence(s, EmittedOne(o, clock, s, i)) && |EmittedOne(o, clock, s, i).losses| == |s.losses| - 1
  {
  }

  lemma EvidenceTwice(s: State, t: State, u: State)
    requires OnlyEvidence(s, t) && OnlyEvidence(t, u)
    ensures OnlyEvidence(s, u)
  {
    forall y | |s.log.records| <= y < |u.log.records|
      ensures u.log.records[y].id.LostId?
    {
      if y < |t.log.records| { assert u.log.records[y] == t.log.records[y]; }
    }
  }

  lemma EmittedMakes(o: Options, clock: Clock, s: State, all: bool)
    requires o.Valid()
    ensures OnlyEvidence(s, Emitted(o, clock, s, all))
  {
    hide EmittedFrom, AtLeast, Options.Window;
    var through := Some(AtLeast(s.closedThrough, o.Window(clock(s.tick)) + o.lossWindowMs));
    EmittedFromMakes(o, clock, if all then s.(closedThrough := through, tick := s.tick + 1) else s, 0, all);
  }

  lemma AccountedMakes(o: Options, clock: Clock, s: State, e: Entry, reason: string)
    requires o.Valid()
    ensures OnlyEvidence(s, Accounted(o, clock, s, e, reason))
  {
    hide Emitted, Counted, Evicted, Starts;
    EmittedMakes(o, clock, Forfeited(s, e, reason), false);
  }

  /** A plain call on an open recorder makes exactly one entry, whose record is what the caller gave:
      its id, session, kind and evidence, and its time or else a reading of the clock in this call. */
  lemma CallIsRecorded(o: Options, clock: Clock, s: State, input: Input) returns (x: nat, at: int)
    requires o.Valid() && s.accepting && input.Snapshot?
    ensures var t := Recorded(o, clock, s, input);
      && OneCall(s, t, x)
      && t.log.records[x] == UsageRecord(Given(input.id), at, input.session, input.kind, input.evidence)
      && (if input.at.Some? then at == input.at.value else exists n: nat :: s.tick <= n < t.tick && at == clock(n))
  {
    hide Emitted, Accounted, Taken;
    var called := s.(log := s.log.(calls := s.log.calls + 1));
    EmittedMakes(o, clock, called, false);
    var m := Emitted(o, clock, called, false);
    x, at := TakenMakes(o, clock, m, input);
    var t := Taken(o, clock, m, input);
    forall y | |s.log.records| <= y < |t.log.records| && y != x
      ensures t.log.records[y].id.LostId?
    {
      if y < |m.log.records| { assert t.log.records[y] == m.log.records[y]; }
    }
  }

  lemma TakenMakes(o: Options, clock: Clock, s: State, input: Input) returns (x: nat, at: int)
    requires o.Valid() && input.Snapshot?
    ensures var t := Taken(o, clock, s, input);
      && OneCall(s, t, x)
      && t.log.records[x] == UsageRecord(Given(input.id), at, input.session, input.kind, input.evidence)
      && (if input.at.Some? then at == input.at.value else exists n: nat :: s.tick <= n < t.tick && at == clock(n))
  {
    hide Accounted;
    var dated := if input.at.Some? then s else s.(tick := s.tick + 1);
    at := if input.at.Some? then input.at.value else clock(s.tick);
    var record := UsageRecord(Given(input.id), at, input.session, input.kind, input.evidence);
    var e := Entry(s.log.entries, record, clock(dated.tick), false, 0);
    var made := dated.(tick := dated.tick + 1, log := Made(dated.log, record));
    x := |s.log.records|;
    var t := Taken(o, clock, s, input);
    AccountedMakes(o, clock, made, e, "overflow");
    assert made.log.records == s.log.records + [record] && made.log.records[x] == record;
    assert t.log.records[x] == made.log.records[x];
    assert s.tick < made.tick <= t.tick;
  }

  /** A counter was found within its window by a reading of this pass. */
  ghost predicate NotDue(o: Options, clock: Clock, l: Loss, a: nat, b: nat) {
    exists n: nat :: a <= n < b && l.start + o.lossWindowMs > clock(n)
  }

  ghost predicate NoneDue(o: Options, clock: Clock, s: State, i: nat, first: nat) {
    forall k :: 0 <= k < i && k < |s.losses| ==> NotDue(o, clock, s.losses[k], first, s.tick)
  }

  lemma {:induction false} PassChecks(o: Options, clock: Clock, s: State, i: nat, first: nat)
    requires first <= s.tick && NoneDue(o, clock, s, i, first)
    ensures var t := EmittedFrom(o, clock, s, i, false); NoneDue(o, clock, t, |t.losses|, first)
    decreases |s.losses| - i
  {
    hide EmittedOne, NotDue;
    if i < |s.losses| {
      var checked := s.(tick := s.tick + 1);
      if s.losses[i].start + o.lossWindowMs > clock(s.tick) {
        KeptIsNotDue(o, clock, s, i, first);
        hide NoneDue;
        PassChecks(o, clock, checked, i + 1, first);
      } else {
        GoneIsNotDue(o, clock, s, i, first);
        OneFewer(o, clock, checked, i);
        hide NoneDue;
        PassChecks(o, clock, EmittedOne(o, clock, checked, i), i, first);
      }
    }
  }

  lemma KeptIsNotDue(o: Options, clock: Clock, s: State, i: nat, first: nat)
    requires first <= s.tick && NoneDue(o, clock, s, i, first) && i < |s.losses|
    requires s.losses[i].start + o.lossWindowMs > clock(s.tick)
    ensures NoneDue(o, clock, s.(tick := s.tick + 1), i + 1, first)
  {
    forall k | 0 <= k < i
      ensures NotDue(o, clock, s.losses[k], first, s.tick + 1)
    {
      NotDueLater(o, clock, s.losses[k], first, s.tick, s.tick + 1);
    }
  }

  lemma GoneIsNotDue(o: Options, clock: Clock, s: State, i: nat, first: nat)
    requires NoneDue(o, clock, s, i, first) && i < |s.losses|
    ensures NoneDue(o, clock, EmittedOne(o, clock, s.(tick := s.tick + 1), i), i, first)
  {
    var m := EmittedOne(o, clock, s.(tick := s.tick + 1), i);
    OneFewer(o, clock, s.(tick := s.tick + 1), i);
    forall k | 0 <= k < i
      ensures NotDue(o, clock, m.losses[k], first, m.tick)
    {
      NotDueLater(o, clock, s.losses[k], first, s.tick, m.tick);
    }
  }

  lemma OneFewer(o: Options, clock: Clock, s: State, i: nat)
    requires i < |s.losses|
    ensures var t := EmittedOne(o, clock, s, i); t.losses == s.losses[..i] + s.losses[i + 1..] && t.tick >= s.tick
    ensures |EmittedOne(o, clock, s, i).log.generated| == |s.log.generated| + 1
  {
  }

  lemma NotDueLater(o: Options, clock: Clock, l: Loss, a: nat, b: nat, b': nat)
    requires NotDue(o, clock, l, a, b) && b <= b'
    ensures NotDue(o, clock, l, a, b')
  {
  }

  /** A pass leaves only counters that a reading of the pass found within their window: every other
      one has become a loss record. The pass that closes the recorder leaves none. */
  lemma NothingDueIsLeft(o: Options, clock: Clock, s: State, all: bool)
    requires o.Valid()
    ensures var t := Emitted(o, clock, s, all);
      && (all ==> t.losses == [])
      && (forall k :: 0 <= k < |t.losses| ==> NotDue(o, clock, t.losses[k], s.tick, t.tick))
      && |t.log.generated| - |s.log.generated| == |s.losses| - |t.losses|
  {
    hide EmittedFrom, AtLeast, Options.Window;
    var through := Some(AtLeast(s.closedThrough, o.Window(clock(s.tick)) + o.lossWindowMs));
    var begun := if all then s.(closedThrough := through, tick := s.tick + 1) else s;
    if all {
      AllGo(o, clock, begun);
    } else {
      PassChecks(o, clock, s, 0, s.tick);
    }
    PassConverts(o, clock, begun, 0, all);
  }

  lemma {:induction false} AllGo(o: Options, clock: Clock, s: State)
    ensures EmittedFrom(o, clock, s, 0, true).losses == []
    decreases |s.losses|
  {
    if s.losses != [] {
      OneFewer(o, clock, s, 0);
      hide EmittedOne;
      AllGo(o, clock, EmittedOne(o, clock, s, 0));
    }
  }

  lemma {:induction false} PassConverts(o: Options, clock: Clock, s: State, i: nat, all: bool)
    ensures var t := EmittedFrom(o, clock, s, i, all);
      |t.log.generated| - |s.log.generated| == |s.losses| - |t.losses|
    decreases |s.losses| - i
  {
    if i < |s.losses| {
      var checked := if all then s else s.(tick := s.tick + 1);
      if !all && s.losses[i].start + o.lossWindowMs > clock(s.tick) {
        PassConverts(o, clock, checked, i + 1, all);
      } else {
        OneFewer(o, clock, checked, i);
        hide EmittedOne;
        PassConverts(o, clock, EmittedOne(o, clock, checked, i), i, all);
      }
    }
  }

  /** A turn of the sender that goes ahead sends the oldest entries, as many as a batch may hold. */
  lemma AttemptBegins(o: Options, clock: Clock, s: State, due: bool)
    requires o.Valid() && Enabled(s, SendBegin(due))
    ensures var t := SendBegun(o, clock, s, due);
      !t.hung ==>
        && t.accepting == s.accepting
        && |Batch(t)| == t.inFlight == if due then Min(o.batchSize, |t.queue|) else 0
  {
    hide Accounted;
    ExpiredFlags(o, clock, s, 0, |s.queue|);
  }

  lemma {:induction false} ExpiredFlags(o: Options, clock: Clock, s: State, k: nat, n: nat)
    requires o.Valid()
    ensures var t := Expired(o, clock, s, k, n); t.inFlight == s.inFlight && t.accepting == s.accepting
    decreases n
  {
    hide Accounted;
    if n > 0 && k < |s.queue| {
      var e := s.queue[k];
      var read := s.(tick := s.tick + 1);
      if e.attempts > 0 && clock(s.tick) - e.since >= o.retryWindowMs {
        var out := read.(queue := s.queue[..k] + s.queue[k + 1..]);
        AccountedFlags(o, clock, out, e);
        ExpiredFlags(o, clock, Accounted(o, clock, out, e, "retryWindow"), k, n - 1);
      } else {
        ExpiredFlags(o, clock, if e.attempts == 0 then s else read, k + 1, n - 1);
      }
    }
  }

  lemma AccountedFlags(o: Options, clock: Clock, s: State, e: Entry)
    requires o.Valid()
    ensures var t := Accounted(o, clock, s, e, "retryWindow"); t.inFlight == s.inFlight && t.accepting == s.accepting
  {
    hide Emitted, Counted, Evicted, Starts;
    EmittedFlags(o, clock, Forfeited(s, e, "retryWindow"), false);
  }

  lemma EmittedFlags(o: Options, clock: Clock, s: State, all: bool)
    requires o.Valid()
    ensures var t := Emitted(o, clock, s, all); t.inFlight == s.inFlight && t.accepting == s.accepting
  {
    hide EmittedFrom, AtLeast, Options.Window;
    var through := Some(AtLeast(s.closedThrough, o.Window(clock(s.tick)) + o.lossWindowMs));
    PassFlags(o, clock, if all then s.(closedThrough := through, tick := s.tick + 1) else s, 0, all);
  }

  lemma {:induction false} PassFlags(o: Options, clock: Clock, s: State, i: nat, all: bool)
    ensures var t := EmittedFrom(o, clock, s, i, all); t.inFlight == s.inFlight && t.accepting == s.accepting
    decreases |s.losses| - i
  {
    if i < |s.losses| {
      var checked := if all then s else s.(tick := s.tick + 1);
      if !all && s.losses[i].start + o.lossWindowMs > clock(s.tick) {
        PassFlags(o, clock, checked, i + 1, all);
      } else {
        PassFlags(o, clock, EmittedOne(o, clock, checked, i), i, all);
      }
    }
  }

  // ---------------------------------------------------------------------------------------
  // What giving up counts.
  // ---------------------------------------------------------------------------------------

  lemma {:induction false} PassGivesUpNone(o: Options, clock: Clock, s: State, i: nat, all: bool)
    ensures var t := EmittedFrom(o, clock, s, i, all);
      t.log.givenUp == s.log.givenUp && |t.losses| <= |s.losses|
    decreases |s.losses| - i
  {
    if i < |s.losses| {
      var checked := if all then s else s.(tick := s.tick + 1);
      if !all && s.losses[i].start + o.lossWindowMs > clock(s.tick) {
        PassGivesUpNone(o, clock, checked, i + 1, all);
      } else {
        PassGivesUpNone(o, clock, EmittedOne(o, clock, checked, i), i, all);
      }
    }
  }

  /** A counter of the session counts a loss of the kind at the time. */
  predicate CountsLoss(l: Loss, session: Option<string>, at: int, kind: string) {
    && l.session == (if session.Some? then session.value else "")
    && l.from <= at <= l.to && CountOf(l.counts, kind) > 0
  }

  /** Giving up on a call's entry counts it once: under the kind of its record, or as unconfirmed when an
      attempt may have stored it; and while there is room for another counter, in one of its own session. */
  lemma GivingUpIsCounted(o: Options, clock: Clock, s: State, e: Entry, reason: string)
    requires o.Valid() && e.record.kind != LOST_KIND
    ensures var t := Accounted(o, clock, s, e, reason);
      var kind := if e.ambiguous then "unconfirmed" else e.record.kind;
      && t.log.givenUp == s.log.givenUp + [GivenUp(e.record, kind)]
      && (|s.losses| < o.maxLossCounters ==>
            exists k :: 0 <= k < |t.losses| && CountsLoss(t.losses[k], e.record.session, e.record.at, kind))
  {
    var f := Forfeited(s, e, reason);
    PassGivesUpNone(o, clock, f, 0, false);
    hide EmittedFrom, AtLeast, Options.Window;
    var m := Emitted(o, clock, f, false);
    var start := AtLeast(m.closedThrough, o.Window(clock(m.tick)));
    CountedForSession(m.losses, start, e);
    if |s.losses| < o.maxLossCounters {
      assert Charged(o, clock, m, e).losses == Counted(m.losses, start, SessionOf(e.record), e.record.at, KindOf(e));
    }
  }

  lemma CountedForSession(ls: seq<Loss>, start: int, e: Entry)
    ensures var r := Counted(ls, start, SessionOf(e.record), e.record.at, KindOf(e));
      && |r| <= |ls| + 1
      && exists k :: 0 <= k < |r| &&
           CountsLoss(r[k], e.record.session, e.record.at, if e.ambiguous then "unconfirmed" else e.record.kind)
  {
    var k := FindLoss(ls, start, SessionOf(e.record));
    var r := Counted(ls, start, SessionOf(e.record), e.record.at, KindOf(e));
    assert CountsLoss(r[k], e.record.session, e.record.at, if e.ambiguous then "unconfirmed" else e.record.kind);
  }
}
