/**
 The usage recorder over whole runs: every accepted call is accounted for exactly once, a loss is
 called definite only if nothing of it was stored, and no loss is silent.
 */
module RecorderRuns {

  import opened Wrappers
  import opened UsageSpec
  import opened LossEvidence

  /** What the counters do not explain yet: zero between steps, one while an entry is in hand. */
  function Debt(s: State): int {
    s.log.calls + |s.log.generated| - s.delivered - s.definiteLoss - s.unconfirmed - |s.queue|
  }

  ghost predicate DistinctSerials(es: seq<Entry>) {
    forall i, j :: 0 <= i < j < |es| ==> es[i].serial != es[j].serial
  }

  /** An entry that some attempt stored or may still store is ambiguous, except for the `n` entries at
      `k`, whose attempt is not settled yet; nothing counted as definite was or can be stored. */
  ghost predicate Sound(queue: seq<Entry>, log: Log, k: nat, n: nat) {
    && DistinctSerials(queue)
    && (forall i :: 0 <= i < |queue| ==> queue[i].serial < log.entries && queue[i].serial !in log.definite)
    && (forall i :: 0 <= i < |queue| && (queue[i].serial in log.stored || queue[i].serial in log.doubtful) ==>
          queue[i].ambiguous || k <= i < k + n)
    && (forall x :: x in log.definite ==> x < log.entries && x !in log.stored && x !in log.doubtful)
    && (forall x :: x in log.stored || x in log.doubtful ==> x < log.entries)
  }

  ghost predicate Ok(o: Options, s: State, k: nat, n: nat) {
    && k + n <= |s.queue| <= o.Capacity()
    && Sound(s.queue, s.log, k, n)
    && Books(s.losses, s.log.generated, s.log.givenUp)
    && s.definiteLoss == |s.log.definite| + CountOf(s.lost, "invalid")
    && SumOf(s.lost) == s.definiteLoss + s.unconfirmed
    && Traceable(s.queue, s.log.generated)
  }

  /** A queued loss record is one the recorder made. */
  ghost predicate Traceable(queue: seq<Entry>, generated: seq<UsageRecord>) {
    forall i :: 0 <= i < |queue| ==> Traced(queue[i].record, generated)
  }

  predicate Traced(r: UsageRecord, generated: seq<UsageRecord>) {
    r.id.LostId? ==> r in generated
  }

  ghost function SumOf(m: map<string, nat>): nat {
    if m == map[] then 0
    else
      var k :| k in m;
      m[k] + SumOf(m - {k})
  }

  lemma {:induction false} SumWithout(m: map<string, nat>, k: string)
    requires k in m
    ensures SumOf(m) == m[k] + SumOf(m - {k})
    decreases |m|
  {
    var c :| c in m && SumOf(m) == m[c] + SumOf(m - {c});
    if c != k {
      SumWithout(m - {c}, k);
      SumWithout(m - {k}, c);
      assert m - {c} - {k} == m - {k} - {c};
    }
  }

  lemma SumBumped(m: map<string, nat>, k: string)
    ensures SumOf(Bumped(m, k, 1)) == SumOf(m) + 1
  {
    var b := Bumped(m, k, 1);
    SumWithout(b, k);
    assert b - {k} == m - {k};
    if k in m {
      SumWithout(m, k);
    } else {
      assert m - {k} == m;
    }
  }

  /** An entry taken out of the queue, or not put in. */
  ghost predicate InHand(s: State, e: Entry) {
    && e.serial < s.log.entries && e.serial !in s.log.definite
    && (forall i :: 0 <= i < |s.queue| ==> s.queue[i].serial != e.serial)
    && (e.serial in s.log.stored || e.serial in s.log.doubtful ==> e.ambiguous)
    && Traced(e.record, s.log.generated)
  }

  /** What accounting may change: it appends loss records to the queue and nothing else of it. */
  ghost predicate Appended(queue: seq<Entry>, log: Log, queue': seq<Entry>, log': Log, spent: set<nat>) {
    && queue <= queue'
    && log.entries <= log'.entries && log.generated <= log'.generated
    && (forall i :: |queue| <= i < |queue'| ==>
          queue'[i].serial >= log.entries && queue'[i].record.kind == LOST_KIND && queue'[i].attempts == 0)
    && (forall x :: x in log'.definite ==> x in log.definite || x in spent || x >= log.entries)
    && log'.stored == log.stored && log'.doubtful == log.doubtful && log'.attemptStored == log.attemptStored
  }

  ghost predicate Grew(s: State, t: State, spent: set<nat>) {
    && Appended(s.queue, s.log, t.queue, t.log, spent)
    && t.inFlight == s.inFlight && t.accepting == s.accepting && t.finished == s.finished
    && t.delivered == s.delivered
  }

  lemma AppendedNone(queue: seq<Entry>, log: Log)
    ensures Appended(queue, log, queue, log, {})
  {
  }

  lemma GrewTwice(s: State, t: State, u: State, a: set<nat>, b: set<nat>)
    requires Grew(s, t, a) && Grew(t, u, b)
    ensures Grew(s, u, a + b)
  {
    forall i | |s.queue| <= i < |u.queue|
      ensures u.queue[i].serial >= s.log.entries && u.queue[i].record.kind == LOST_KIND
    {
      if i < |t.queue| { assert u.queue[i] == t.queue[i]; }
    }
  }

  lemma GrewOn(s: State, t: State, u: State)
    requires Grew(s, t, {}) && Grew(t, u, {})
    ensures Grew(s, u, {})
  {
    hide Grew;
    GrewTwice(s, t, u, {}, {});
    var none: set<nat> := {};
    assert none + none == none;
  }

  lemma ForfeitedKeeps(o: Options, s: State, e: Entry, reason: string, k: nat, n: nat)
    requires Ok(o, s, k, n) && InHand(s, e) && reason != "invalid"
    ensures var t := Forfeited(s, e, reason);
      Ok(o, t, k, n) && Grew(s, t, {e.serial}) && Debt(t) == Debt(s) - 1
  {
    hide SumOf;
    SumBumped(s.lost, reason);
  }

  /** A counter has become a loss record that is not queued yet. */
  lemma ConvertedKeeps(o: Options, clock: Clock, s: State, i: nat, k: nat, n: nat)
    requires Ok(o, s, k, n) && i < |s.losses|
    ensures var t, e := Converted(o, clock, s, i), ConvertedEntry(clock, s, i);
      && Ok(o, t, k, n) && Grew(s, t, {}) && Debt(t) == Debt(s) + 1 && InHand(t, e)
      && e.serial >= s.log.entries && e.record.kind == LOST_KIND
      && |t.losses| == |s.losses| - 1 && t.hung == s.hung && t.queue == s.queue
  {
    EmissionKeepsBooks(s.losses, s.log.generated, s.log.givenUp, i, clock(s.tick));
  }

  lemma QueuedKeeps(o: Options, s: State, e: Entry, k: nat, n: nat)
    requires Ok(o, s, k, n) && InHand(s, e) && |s.queue| < o.Capacity()
    ensures var t := s.(queue := s.queue + [e]);
      Ok(o, t, k, n) && Debt(t) == Debt(s) - 1
  {
  }

  lemma EmittedOneKeeps(o: Options, clock: Clock, s: State, i: nat, k: nat, n: nat)
    requires Ok(o, s, k, n) && i < |s.losses|
    ensures var t := EmittedOne(o, clock, s, i);
      && Ok(o, t, k, n) && Grew(s, t, {}) && Debt(t) == Debt(s)
      && |t.losses| == |s.losses| - 1 && t.hung == s.hung
  {
    ConvertedKeeps(o, clock, s, i, k, n);
    hide Sound, Books, InHand, Converted, ConvertedEntry;
    var m, e := Converted(o, clock, s, i), ConvertedEntry(clock, s, i);
    if |m.queue| < o.Capacity() {
      QueuedKeeps(o, m, e, k, n);
    } else {
      ForfeitedKeeps(o, m, e, "overflow", k, n);
    }
  }

  /** Reading the clock, or doing nothing, changes no record, no loss and no debt. */
  lemma Unmoved(o: Options, s: State, k: nat, n: nat)
    requires Ok(o, s, k, n)
    ensures Grew(s, s, {})
    ensures var t := s.(tick := s.tick + 1); Ok(o, t, k, n) && Grew(s, t, {}) && Debt(t) == Debt(s)
  {
    hide Sound, Books, Appended;
    AppendedNone(s.queue, s.log);
  }

  lemma {:induction false} EmittedFromKeeps(o: Options, clock: Clock, s: State, i: nat, all: bool, k: nat, n: nat)
    requires Ok(o, s, k, n)
    ensures var t := EmittedFrom(o, clock, s, i, all);
      && Ok(o, t, k, n) && Grew(s, t, {}) && Debt(t) == Debt(s)
      && |t.losses| <= |s.losses| && t.hung == s.hung && (all && i == 0 ==> t.losses == [])
      && (s.losses == [] ==> t.queue == s.queue)
    decreases |s.losses| - i
  {
    Unmoved(o, s, k, n);
    hide EmittedOne, Ok, Grew, Debt;
    if i < |s.losses| {
      var checked := if all then s else s.(tick := s.tick + 1);
      if !all && s.losses[i].start + o.lossWindowMs > clock(s.tick) {
        EmittedFromKeeps(o, clock, checked, i + 1, all, k, n);
        GrewOn(s, checked, EmittedFrom(o, clock, s, i, all));
      } else {
        EmittedOneKeeps(o, clock, checked, i, k, n);
        EmittedFromKeeps(o, clock, EmittedOne(o, clock, checked, i), i, all, k, n);
        GrewOn(checked, EmittedOne(o, clock, checked, i), EmittedFrom(o, clock, s, i, all));
        GrewOn(s, checked, EmittedFrom(o, clock, s, i, all));
      }
    }
  }

  lemma EmittedKeeps(o: Options, clock: Clock, s: State, all: bool, k: nat, n: nat)
    requires o.Valid() && Ok(o, s, k, n)
    ensures var t := Emitted(o, clock, s, all);
      && Ok(o, t, k, n) && Grew(s, t, {}) && Debt(t) == Debt(s)
      && |t.losses| <= |s.losses| && t.hung == s.hung && (all ==> t.losses == [])
      && (s.losses == [] ==> t.queue == s.queue)
  {
    hide EmittedFrom, Sound, Books, Appended, AtLeast, Options.Window;
    var begun := if all
      then s.(closedThrough := Some(AtLeast(s.closedThrough, o.Window(clock(s.tick)) + o.lossWindowMs)),
              tick := s.tick + 1)
      else s;
    EmittedFromKeeps(o, clock, begun, 0, all, k, n);
  }

  lemma ChargedKeeps(o: Options, clock: Clock, s: State, e: Entry, k: nat, n: nat)
    requires o.Valid() && Ok(o, s, k, n) && e.record.kind != LOST_KIND
    ensures var t := Charged(o, clock, s, e);
      Ok(o, t, k, n) && Grew(s, t, {}) && Debt(t) == Debt(s)
  {
    var start := AtLeast(s.closedThrough, o.Window(clock(s.tick)));
    ChargeKeepsBooks(s.losses, s.log.generated, s.log.givenUp, start, GivenUp(e.record, KindOf(e)), o.maxLossCounters);
  }

  /** Accounting for an entry settles it: the books stay exact, whichever branch is taken. */
  lemma AccountedKeeps(o: Options, clock: Clock, s: State, e: Entry, reason: string, k: nat, n: nat)
    requires o.Valid() && Ok(o, s, k, n) && InHand(s, e) && reason != "invalid"
    ensures var t := Accounted(o, clock, s, e, reason);
      && Ok(o, t, k, n) && Grew(s, t, {e.serial}) && Debt(t) == Debt(s) - 1
      && (e.record.kind == LOST_KIND ==> t.queue == s.queue && t.losses == s.losses && t.hung == s.hung)
  {
    hide Emitted, Charged, Sound, Books;
    var f := Forfeited(s, e, reason);
    ForfeitedKeeps(o, s, e, reason, k, n);
    if e.record.kind != LOST_KIND {
      var m := Emitted(o, clock, f, false);
      EmittedKeeps(o, clock, f, false, k, n);
      ChargedKeeps(o, clock, m, e, k, n);
      GrewTwice(s, f, m, {e.serial}, {});
      GrewTwice(s, m, Charged(o, clock, m, e), {e.serial}, {});
    }
  }

  lemma StillInHand(s: State, t: State, e: Entry, spent: set<nat>)
    requires InHand(s, e) && Grew(s, t, spent) && e.serial !in spent
    ensures InHand(t, e)
  {
    forall i | 0 <= i < |t.queue|
      ensures t.queue[i].serial != e.serial
    {
      if i < |s.queue| { assert t.queue[i] == s.queue[i]; }
    }
  }

  lemma {:induction false} AccountedAllKeeps(o: Options, clock: Clock, s: State, es: seq<Entry>, reason: string)
    requires o.Valid() && Ok(o, s, 0, 0) && DistinctSerials(es) && reason != "invalid"
    requires forall i :: 0 <= i < |es| ==> InHand(s, es[i])
    ensures var t := AccountedAll(o, clock, s, es, reason);
      && Ok(o, t, 0, 0) && Grew(s, t, Serials(es)) && Debt(t) == Debt(s) - |es|
      && ((forall i :: 0 <= i < |es| ==> es[i].record.kind == LOST_KIND) ==>
            t.queue == s.queue && t.losses == s.losses && t.hung == s.hung)
    decreases |es|
  {
    if es != [] {
      var n := Accounted(o, clock, s, es[0], reason);
      AccountedKeeps(o, clock, s, es[0], reason, 0, 0);
      assert forall i :: 0 <= i < |es[1..]| ==> es[1..][i] == es[i + 1];
      forall i | 0 <= i < |es[1..]|
        ensures InHand(n, es[1..][i])
      {
        StillInHand(s, n, es[i + 1], {es[0].serial});
      }
      AccountedAllKeeps(o, clock, n, es[1..], reason);
      GrewTwice(s, n, AccountedAll(o, clock, n, es[1..], reason), {es[0].serial}, Serials(es[1..]));
      SerialsCons(es);
    }
  }

  lemma SerialsCons(es: seq<Entry>)
    requires es != []
    ensures Serials(es) == {es[0].serial} + Serials(es[1..])
  {
    assert es == [es[0]] + es[1..];
  }

  /** Taking the k-th entry out of the queue, possibly marked by the attempt that just failed. */
  lemma TakeOut(o: Options, s: State, k: nat, n: nat, e: Entry)
    requires Ok(o, s, k, n) && k < |s.queue|
    requires e.serial == s.queue[k].serial && e.record == s.queue[k].record &&
      (s.queue[k].ambiguous || n > 0 ==> e.ambiguous)
    ensures var t := s.(queue := s.queue[..k] + s.queue[k + 1..]);
      Ok(o, t, k, if n > 0 then n - 1 else 0) && InHand(t, e) && Debt(t) == Debt(s) + 1
  {
    var q := s.queue[..k] + s.queue[k + 1..];
    assert forall i :: 0 <= i < |q| ==> q[i] == s.queue[if i < k then i else i + 1];
  }

  /** Putting the marked entry back in its place. */
  lemma PutBack(o: Options, s: State, k: nat, n: nat, e: Entry)
    requires Ok(o, s, k, n) && k < |s.queue|
    requires e.serial == s.queue[k].serial && e.record == s.queue[k].record &&
      (s.queue[k].ambiguous || n > 0 ==> e.ambiguous)
    ensures var t := s.(queue := s.queue[k := e]);
      Ok(o, t, k + 1, if n > 0 then n - 1 else 0) && Debt(t) == Debt(s)
  {
  }

  // ---------------------------------------------------------------------------------------
  // Every step keeps the invariant.
  // ---------------------------------------------------------------------------------------

  /** The entries whose attempt is in flight and has stored something. */
  function Exempt(s: State): nat {
    if s.log.attemptStored && !s.finished then s.inFlight else 0
  }

  /** The batch in flight is the front of the queue, and only its entries may be stored without
      being ambiguous; after `close()` the queue and the counters are empty. */
  ghost predicate Inv(o: Options, s: State) {
    && Ok(o, s, 0, Exempt(s))
    && Debt(s) == 0
    && (!s.finished ==> s.inFlight <= |s.queue|)
    && (s.finished ==> s.queue == [] && s.losses == [] && !s.accepting)
  }

  /** Nothing but the queue, the counters and the books changed, and loss records are only added. */
  ghost predicate SameFlags(s: State, t: State) {
    && s.log.generated <= t.log.generated && t.delivered == s.delivered
    && t.inFlight == s.inFlight && t.accepting == s.accepting && t.finished == s.finished
    && t.log.stored == s.log.stored && t.log.doubtful == s.log.doubtful && t.log.attemptStored == s.log.attemptStored
  }

  lemma GrewFacts(s: State, t: State, spent: set<nat>)
    requires Grew(s, t, spent)
    ensures SameFlags(s, t) && s.queue <= t.queue
  {
  }

  lemma NoneExempt(o: Options, s: State, k: nat, j: nat)
    requires Ok(o, s, k, 0) && j <= |s.queue|
    ensures Ok(o, s, j, 0)
  {
  }

  /** A new entry is queued, or accounted for at once when the queue is full. */
  lemma NewEntryKeeps(o: Options, clock: Clock, s: State, tick: nat, record: UsageRecord, since: int, k: nat, n: nat)
    requires o.Valid() && Ok(o, s, k, n) && Debt(s) == 1 && record.id.Given?
    ensures var e := Entry(s.log.entries, record, since, false, 0);
      var made := s.(tick := tick, log := Made(s.log, record));
      var t := if |made.queue| >= o.queueLimit then Accounted(o, clock, made, e, "overflow")
               else made.(queue := made.queue + [e]);
      Ok(o, t, k, n) && Grew(s, t.(queue := s.queue), {s.log.entries}) && Debt(t) == 0 && s.queue <= t.queue
  {
    hide Accounted, Ok, Books, InHand, Sound;
    var e := Entry(s.log.entries, record, since, false, 0);
    var made := s.(tick := tick, log := Made(s.log, record));
    MadeKeeps(o, s, made, e, k, n);
    OkFits(o, s, k, n);
    if |made.queue| >= o.queueLimit {
      AccountedKeeps(o, clock, made, e, "overflow", k, n);
    } else {
      QueuedKeeps(o, made, e, k, n);
    }
  }

  /** A new entry has a serial nobody has seen. */
  lemma MadeKeeps(o: Options, s: State, made: State, e: Entry, k: nat, n: nat)
    requires Ok(o, s, k, n) && e.serial == s.log.entries && !e.ambiguous && e.record.id.Given?
    requires made == s.(tick := made.tick, log := Made(s.log, e.record))
    ensures Ok(o, made, k, n) && InHand(made, e)
  {
    hide Books, SumOf;
  }

  lemma OkFits(o: Options, s: State, k: nat, n: nat)
    requires Ok(o, s, k, n)
    ensures |s.queue| <= o.Capacity()
  {
  }

  lemma RecordedKeeps(o: Options, clock: Clock, s: State, input: Input)
    requires o.Valid() && Inv(o, s)
    ensures Inv(o, Recorded(o, clock, s, input))
    ensures SameFlags(s, Recorded(o, clock, s, input)) && s.queue <= Recorded(o, clock, s, input).queue
  {
    hide Emitted, Taken, Ok, Grew, Bumped;
    CalledKeeps(o, s);
    if s.accepting {
      var called := s.(log := s.log.(calls := s.log.calls + 1));
      EmittedKeeps(o, clock, called, false, 0, Exempt(s));
      var n := Emitted(o, clock, called, false);
      GrewFacts(called, n, {});
      if input.Invalid? {
        InvalidKeeps(o, n, Exempt(s));
      } else {
        TakenKeeps(o, clock, n, input, Exempt(s));
      }
    }
  }

  lemma TakenKeeps(o: Options, clock: Clock, s: State, input: Input, n: nat)
    requires o.Valid() && Ok(o, s, 0, n) && Debt(s) == 1 && input.Snapshot?
    ensures var t := Taken(o, clock, s, input);
      Ok(o, t, 0, n) && Debt(t) == 0 && SameFlags(s, t) && s.queue <= t.queue
  {
    hide Accounted, Ok, Grew;
    var dated := if input.at.Some? then s else s.(tick := s.tick + 1);
    var record := UsageRecord(Given(input.id), if input.at.Some? then input.at.value else clock(s.tick),
                              input.session, input.kind, input.evidence);
    OkAt(o, s, dated, 0, n);
    NewEntryKeeps(o, clock, dated, dated.tick + 1, record, clock(dated.tick), 0, n);
    GrewFacts(dated, Taken(o, clock, s, input).(queue := dated.queue), {dated.log.entries});
  }

  /** A call that is not plain data is a definite loss without an entry. */
  lemma InvalidKeeps(o: Options, s: State, n: nat)
    requires Ok(o, s, 0, n)
    ensures var t := s.(lost := Bumped(s.lost, "invalid", 1), definiteLoss := s.definiteLoss + 1);
      Ok(o, t, 0, n) && Debt(t) == Debt(s) - 1
  {
    hide Sound, Books, SumOf;
    SumBumped(s.lost, "invalid");
  }

  lemma CalledKeeps(o: Options, s: State)
    requires Inv(o, s)
    ensures Ok(o, s, 0, Exempt(s)) && Ok(o, s.(log := s.log.(calls := s.log.calls + 1)), 0, Exempt(s))
  {
  }

  /** The k-th entry is taken out and accounted for. */
  lemma OutKeeps(o: Options, clock: Clock, s: State, k: nat, n: nat, e: Entry)
    requires o.Valid() && Ok(o, s, k, n) && k < |s.queue|
    requires e.serial == s.queue[k].serial && e.record == s.queue[k].record &&
      (s.queue[k].ambiguous || n > 0 ==> e.ambiguous)
    ensures var out := s.(queue := s.queue[..k] + s.queue[k + 1..]);
      var t := Accounted(o, clock, out, e, "retryWindow");
      && Ok(o, t, k, if n > 0 then n - 1 else 0) && SameFlags(s, t) && Debt(t) == Debt(s)
      && |s.queue| - 1 <= |t.queue|
  {
    hide Accounted, Sound, Books, Grew, InHand;
    TakeOut(o, s, k, n, e);
    var out := s.(queue := s.queue[..k] + s.queue[k + 1..]);
    AccountedKeeps(o, clock, out, e, "retryWindow", k, if n > 0 then n - 1 else 0);
    GrewFacts(out, Accounted(o, clock, out, e, "retryWindow"), {e.serial});
  }

  /** One entry of a failed batch is marked, and expires or goes back to its place. */
  lemma MarkedStep(o: Options, clock: Clock, s: State, k: nat, n: nat, ambiguous: bool) returns (t: State, j: nat)
    requires o.Valid() && n > 0 && k + n <= |s.queue| && Ok(o, s, k, if ambiguous then n else 0)
    ensures Marked(o, clock, s, k, n, ambiguous) == Marked(o, clock, t, j, n - 1, ambiguous)
    ensures Ok(o, t, j, if ambiguous then n - 1 else 0) && SameFlags(s, t) && Debt(t) == Debt(s)
    ensures j + (n - 1) <= |t.queue|
  {
    hide Accounted, Ok;
    var x := if ambiguous then n else 0;
    var e := s.queue[k].(ambiguous := s.queue[k].ambiguous || ambiguous, attempts := s.queue[k].attempts + 1);
    var read := s.(tick := s.tick + 1);
    OkRead(o, s, k, x);
    if clock(s.tick) - e.since >= o.retryWindowMs {
      OutKeeps(o, clock, read, k, x, e);
      t, j := Accounted(o, clock, read.(queue := s.queue[..k] + s.queue[k + 1..]), e, "retryWindow"), k;
    } else {
      PutBack(o, read, k, x, e);
      t, j := read.(queue := s.queue[k := e]), k + 1;
    }
  }

  /** A failed attempt: `n` entries of the batch are left at position `k`. */
  lemma {:induction false} MarkedKeeps(o: Options, clock: Clock, s: State, k: nat, n: nat, ambiguous: bool)
    requires o.Valid() && k + n <= |s.queue|
    requires Ok(o, s, k, if ambiguous then n else 0)
    ensures var t := Marked(o, clock, s, k, n, ambiguous);
      Ok(o, t, 0, 0) && SameFlags(s, t) && Debt(t) == Debt(s)
    decreases n
  {
    hide Ok, Debt;
    if n == 0 {
      NoneExempt(o, s, k, 0);
    } else {
      var t, j := MarkedStep(o, clock, s, k, n, ambiguous);
      hide Marked;
      MarkedKeeps(o, clock, t, j, n - 1, ambiguous);
    }
  }

  lemma OkAt(o: Options, s: State, t: State, k: nat, n: nat)
    requires Ok(o, s, k, n) && t == s.(tick := t.tick)
    ensures Ok(o, t, k, n)
  {
  }

  lemma OkRead(o: Options, s: State, k: nat, n: nat)
    requires Ok(o, s, k, n)
    ensures Ok(o, s.(tick := s.tick + 1), k, n)
  {
  }

  lemma {:induction false} ExpiredKeeps(o: Options, clock: Clock, s: State, k: nat, n: nat)
    requires o.Valid() && Ok(o, s, 0, 0) && k + n <= |s.queue|
    ensures var t := Expired(o, clock, s, k, n);
      Ok(o, t, 0, 0) && SameFlags(s, t) && Debt(t) == Debt(s)
    decreases n
  {
    hide Accounted, Ok;
    if n > 0 {
      var e := s.queue[k];
      var read := s.(tick := s.tick + 1);
      OkRead(o, s, 0, 0);
      if e.attempts > 0 && clock(s.tick) - e.since >= o.retryWindowMs {
        NoneExempt(o, read, 0, k);
        OutKeeps(o, clock, read, k, 0, e);
        var out := read.(queue := s.queue[..k] + s.queue[k + 1..]);
        NoneExempt(o, Accounted(o, clock, out, e, "retryWindow"), k, 0);
        ExpiredKeeps(o, clock, Accounted(o, clock, out, e, "retryWindow"), k, n - 1);
      } else {
        ExpiredKeeps(o, clock, if e.attempts == 0 then s else read, k + 1, n - 1);
      }
    }
  }

  lemma SendBegunKeeps(o: Options, clock: Clock, s: State, due: bool)
    requires o.Valid() && Inv(o, s) && !s.finished && s.inFlight == 0
    ensures Inv(o, SendBegun(o, clock, s, due))
  {
    ExpiredKeeps(o, clock, s, 0, |s.queue|);
  }

  /** While the attempt runs it may store entries of its batch. */
  lemma StoredKeeps(o: Options, s: State, serial: nat)
    requires Inv(o, s) && !s.finished && s.inFlight > 0 && serial in Serials(Batch(s))
    ensures Inv(o, Stored(s, serial))
  {
    hide Books, SumOf;
    BatchSerials(s);
    var i :| 0 <= i < s.inFlight && s.queue[i].serial == serial;
    assert forall j :: 0 <= j < |s.queue| && s.queue[j].serial == serial ==> j == i;
  }

  /** Long after an ambiguous failure, or after `close()`, a batch may still be stored, whether its
      entries are queued for a retry, delivered by one, or given up on. */
  lemma StoredLateKeeps(o: Options, s: State, serial: nat)
    requires Inv(o, s) && serial in s.log.doubtful
    ensures Inv(o, StoredLate(s, serial))
  {
  }

  lemma SendSucceededKeeps(o: Options, s: State)
    requires Inv(o, s)
    ensures Inv(o, SendSucceeded(s))
  {
    hide Books, SumOf, Serials;
    if !s.finished {
      var q := s.queue[s.inFlight..];
      assert forall i :: 0 <= i < |q| ==> q[i] == s.queue[i + s.inFlight];
    }
  }

  lemma RefusedKeeps(o: Options, s: State, ambiguous: bool)
    requires Inv(o, s) && !s.finished && (ambiguous || !s.log.attemptStored)
    ensures Ok(o, Refused(s, ambiguous), 0, if ambiguous then s.inFlight else 0) && Debt(Refused(s, ambiguous)) == 0
  {
    BatchSerials(s);
  }

  lemma SendFailedKeeps(o: Options, clock: Clock, s: State, ambiguous: bool)
    requires o.Valid() && Inv(o, s) && (ambiguous || !s.log.attemptStored)
    ensures Inv(o, SendFailed(o, clock, s, ambiguous))
    ensures var t := SendFailed(o, clock, s, ambiguous);
      t.inFlight == 0 && t.delivered == s.delivered && s.log.generated <= t.log.generated
  {
    if !s.finished {
      var idle := Refused(s, ambiguous);
      RefusedKeeps(o, s, ambiguous);
      MarkedKeeps(o, clock, idle, 0, s.inFlight, ambiguous);
      var n := Marked(o, clock, idle, 0, s.inFlight, ambiguous);
      if !n.hung { EmittedKeeps(o, clock, n, !n.accepting, 0, 0); }
    }
  }

  /** What the end of `close()` leaves as it was, and what it no longer waits for. */
  ghost predicate Closes(s: State, t: State) {
    && t.finished && t.inFlight == s.inFlight && t.delivered == s.delivered
    && s.log.generated <= t.log.generated && t.log.stored == s.log.stored && t.log.attemptStored == s.log.attemptStored
    && t.log.doubtful == s.log.doubtful + Serials(Batch(s))
  }

  lemma CloseFinishedKeeps(o: Options, clock: Clock, s: State)
    requires o.Valid() && Inv(o, s) && !s.accepting && !s.finished
    ensures Inv(o, CloseFinished(o, clock, s)) && Closes(s, CloseFinished(o, clock, s))
  {
    hide Emitted, AccountedAll, Inv, Sound, Books, InHand, MarkedAmbiguous, Serials, Batch;
    var entries := MarkedAmbiguous(s.queue, s.inFlight);
    var closed := s.(finished := true, queue := [], log := s.log.(doubtful := s.log.doubtful + Serials(Batch(s))));
    ClosedKeeps(o, s, entries, closed);
    AccountedAllKeeps(o, clock, closed, entries, "closeTimeout");
    var accounted := AccountedAll(o, clock, closed, entries, "closeTimeout");
    EmittedKeeps(o, clock, accounted, true, 0, 0);
    var first := Emitted(o, clock, accounted, true);
    GrewTwice(closed, accounted, first, Serials(entries), {});
    EvidenceUndeliverable(o, clock, closed, first);
    GrewFacts(closed, first, Serials(entries) + {});
    GrewFacts(first.(queue := []), CloseFinished(o, clock, s), Serials(first.queue));
  }

  /** At the deadline the whole queue is in hand, and what is in flight is ambiguous. */
  lemma ClosedKeeps(o: Options, s: State, entries: seq<Entry>, closed: State)
    requires Inv(o, s) && !s.finished && entries == MarkedAmbiguous(s.queue, s.inFlight)
    requires closed == s.(finished := true, queue := [], log := s.log.(doubtful := s.log.doubtful + Serials(Batch(s))))
    ensures Ok(o, closed, 0, 0) && Debt(closed) == |entries| && DistinctSerials(entries)
    ensures forall i :: 0 <= i < |entries| ==> InHand(closed, entries[i])
    ensures forall x :: x in closed.log.stored || x in closed.log.doubtful ==> x < closed.log.entries
  {
    MarkedAmbiguousIs(s.queue, s.inFlight);
    BatchSerials(s);
  }

  lemma BatchSerials(s: State)
    requires s.inFlight <= |s.queue| && DistinctSerials(s.queue)
    ensures forall i :: 0 <= i < |s.queue| ==> (s.queue[i].serial in Serials(Batch(s)) <==> i < s.inFlight)
    ensures forall x :: x in Serials(Batch(s)) ==> exists i :: 0 <= i < s.inFlight && s.queue[i].serial == x
  {
    var b := Batch(s);
    forall i | 0 <= i < |s.queue|
      ensures s.queue[i].serial in Serials(b) <==> i < s.inFlight
    {
      if i < s.inFlight { assert b[i] in b; }
    }
  }

  /** The evidence made at the deadline is itself counted, and leaves nothing behind. */
  lemma EvidenceUndeliverable(o: Options, clock: Clock, closed: State, first: State)
    requires o.Valid() && closed.queue == [] && closed.finished && !closed.accepting
    requires Ok(o, first, 0, 0) && Debt(first) == 0 && first.losses == []
    requires Appended([], closed.log, first.queue, first.log, Serials([])) ||
      exists a :: Appended([], closed.log, first.queue, first.log, a)
    requires first.finished && !first.accepting
    requires forall x :: x in closed.log.stored || x in closed.log.doubtful ==> x < closed.log.entries
    ensures var t := AccountedAll(o, clock, first.(queue := []), first.queue, "closeTimeout");
      Inv(o, t) && Grew(first.(queue := []), t, Serials(first.queue))
  {
    var emptied := first.(queue := []);
    assert forall i :: 0 <= i < |first.queue| ==>
      InHand(emptied, first.queue[i]) && first.queue[i].record.kind == LOST_KIND;
    AccountedAllKeeps(o, clock, emptied, first.queue, "closeTimeout");
  }

  lemma NextKeeps(o: Options, clock: Clock, s: State, a: Action)
    requires o.Valid() && Inv(o, s) && Enabled(s, a)
    ensures Inv(o, Next(o, clock, s, a))
  {
    hide Emitted, Recorded, SendBegun, SendFailed, CloseFinished;
    match a {
      case Record(input) => RecordedKeeps(o, clock, s, input);
      case Flush(draining) => EmittedKeeps(o, clock, s, draining, 0, Exempt(s));
      case SendBegin(due) => SendBegunKeeps(o, clock, s, due);
      case Store(serial) => StoredKeeps(o, s, serial);
      case StoreLate(serial) => StoredLateKeeps(o, s, serial);
      case SendOk => SendSucceededKeeps(o, s);
      case SendFail(ambiguous) => SendFailedKeeps(o, clock, s, ambiguous);
      case CloseBegin => EmittedKeeps(o, clock, s.(accepting := false), true, 0, Exempt(s));
      case CloseFinish => CloseFinishedKeeps(o, clock, s);
    }
  }

  // ---------------------------------------------------------------------------------------
  // Whole runs.
  // ---------------------------------------------------------------------------------------

  lemma InitialHolds(o: Options)
    ensures Inv(o, INITIAL)
  {
  }

  lemma {:induction false} RunsKeep(o: Options, clock: Clock, s: State, steps: seq<Action>)
    requires o.Valid() && Inv(o, s) && Legal(o, clock, s, steps)
    ensures Inv(o, After(o, clock, s, steps))
    decreases |steps|
  {
    hide Next, Inv;
    if steps != [] {
      NextKeeps(o, clock, s, steps[0]);
      RunsKeep(o, clock, Next(o, clock, s, steps[0]), steps[1..]);
    }
  }

  /** Conservation, for every clock, transport and order of steps: each accepted call and each
      generated loss record is delivered, definitely lost, unconfirmed or still queued, and the
      queue stays within its limit and the reserve. */
  lemma EveryCallAccountedFor(o: Options, clock: Clock, steps: seq<Action>)
    requires o.Valid() && Legal(o, clock, INITIAL, steps)
    ensures var s := After(o, clock, INITIAL, steps);
      && s.log.calls + |s.log.generated| == s.delivered + s.definiteLoss + s.unconfirmed + |s.queue|
      && |s.queue| <= o.Capacity()
  {
    InitialHolds(o);
    RunsKeep(o, clock, INITIAL, steps);
  }

  /** The losses by reason add up to the definite losses and the unconfirmed ones. */
  lemma ReasonsAddUp(o: Options, clock: Clock, steps: seq<Action>)
    requires o.Valid() && Legal(o, clock, INITIAL, steps)
    ensures var s := After(o, clock, INITIAL, steps);
      SumOf(s.lost) == s.definiteLoss + s.unconfirmed
  {
    InitialHolds(o);
    RunsKeep(o, clock, INITIAL, steps);
  }

  /** Some reading of the clock between two ticks was within the retry window of the entry. */
  ghost predicate InTime(o: Options, clock: Clock, e: Entry, a: nat, b: nat) {
    e.attempts == 0 || exists t: nat :: a <= t < b && clock(t) - e.since < o.retryWindowMs
  }

  ghost predicate AllInTime(o: Options, clock: Clock, es: seq<Entry>, a: nat, b: nat) {
    forall i :: 0 <= i < |es| ==> InTime(o, clock, es[i], a, b)
  }

  lemma InTimeWider(o: Options, clock: Clock, e: Entry, a: nat, b: nat, a': nat, b': nat)
    requires InTime(o, clock, e, a, b) && a' <= a && b <= b'
    ensures InTime(o, clock, e, a', b')
  {
  }

  /** After the entries of the copy are looked at, what is left of them is still in time, and what
      came behind them was never sent. */
  lemma {:induction false} ExpiredInTime(o: Options, clock: Clock, s: State, k: nat, n: nat, start: nat)
    requires o.Valid() && Ok(o, s, 0, 0) && k + n <= |s.queue| && start <= s.tick
    requires forall i :: 0 <= i < k ==> InTime(o, clock, s.queue[i], start, s.tick)
    requires forall i :: k + n <= i < |s.queue| ==> s.queue[i].attempts == 0
    ensures AllInTime(o, clock, Expired(o, clock, s, k, n).queue, start, Expired(o, clock, s, k, n).tick)
    decreases n
  {
    hide Accounted, Ok;
    if n > 0 {
      var e := s.queue[k];
      var read := s.(tick := s.tick + 1);
      OkRead(o, s, 0, 0);
      forall i | 0 <= i < k
        ensures InTime(o, clock, s.queue[i], start, s.tick + 1)
      {
        InTimeWider(o, clock, s.queue[i], start, s.tick, start, s.tick + 1);
      }
      if e.attempts > 0 && clock(s.tick) - e.since >= o.retryWindowMs {
        NoneExempt(o, read, 0, k);
        OutKeeps(o, clock, read, k, 0, e);
        var out := read.(queue := s.queue[..k] + s.queue[k + 1..]);
        var t := Accounted(o, clock, out, e, "retryWindow");
        NoneExempt(o, t, k, 0);
        OutInTime(o, clock, read, k, e, n, start);
        ExpiredInTime(o, clock, t, k, n - 1, start);
      } else if e.attempts > 0 {
        assert InTime(o, clock, e, start, s.tick + 1);
        ExpiredInTime(o, clock, read, k + 1, n - 1, start);
      } else {
        assert InTime(o, clock, e, start, s.tick);
        ExpiredInTime(o, clock, s, k + 1, n - 1, start);
      }
    }
  }

  lemma OutInTime(o: Options, clock: Clock, s: State, k: nat, e: Entry, n: nat, start: nat)
    requires o.Valid() && Ok(o, s, k, 0) && n > 0 && k + n <= |s.queue| && e == s.queue[k] && e.attempts > 0
    requires e.ambiguous == s.queue[k].ambiguous
    requires forall i :: 0 <= i < k ==> InTime(o, clock, s.queue[i], start, s.tick)
    requires forall i :: k + n <= i < |s.queue| ==> s.queue[i].attempts == 0
    ensures var t := Accounted(o, clock, s.(queue := s.queue[..k] + s.queue[k + 1..]), e, "retryWindow");
      && (forall i :: 0 <= i < k ==> i < |t.queue| && InTime(o, clock, t.queue[i], start, t.tick))
      && (forall i :: k + n - 1 <= i < |t.queue| ==> t.queue[i].attempts == 0)
  {
    hide Accounted, Ok, InHand;
    var out := s.(queue := s.queue[..k] + s.queue[k + 1..]);
    TakeOut(o, s, k, 0, e);
    AccountedKeeps(o, clock, out, e, "retryWindow", k, 0);
    var t := Accounted(o, clock, out, e, "retryWindow");
    forall i | 0 <= i < k
      ensures i < |t.queue| && InTime(o, clock, t.queue[i], start, t.tick)
    {
      assert t.queue[i] == out.queue[i] == s.queue[i];
      InTimeWider(o, clock, s.queue[i], start, s.tick, start, t.tick);
    }
    forall i | k + n - 1 <= i < |t.queue|
      ensures t.queue[i].attempts == 0
    {
      if i < |out.queue| { assert t.queue[i] == out.queue[i] == s.queue[i + 1]; }
    }
  }

  /** No entry is sent again after its retry window: when a batch is formed, each entry in it was
      never sent, or was looked at in this very step and found in time. */
  lemma RetriesAreInTime(o: Options, clock: Clock, s: State, due: bool)
    requires o.Valid() && Inv(o, s) && Enabled(s, SendBegin(due))
    ensures AllInTime(o, clock, Batch(SendBegun(o, clock, s, due)), s.tick, SendBegun(o, clock, s, due).tick)
  {
    hide Expired, InTime, Ok;
    assert Ok(o, s, 0, 0);
    ExpiredInTime(o, clock, s, 0, |s.queue|, s.tick);
    var n, t := Expired(o, clock, s, 0, |s.queue|), SendBegun(o, clock, s, due);
    assert t.queue == n.queue && t.tick == n.tick;
    assert forall i :: 0 <= i < |Batch(t)| ==> Batch(t)[i] == n.queue[i];
  }

  /** What `close()` returns explains everything, and every loss has been turned into evidence. */
  lemma CloseReportsEverything(o: Options, clock: Clock, steps: seq<Action>, i: nat)
    requires o.Valid() && Legal(o, clock, INITIAL, steps)
    requires After(o, clock, INITIAL, steps).finished
    ensures var s := After(o, clock, INITIAL, steps);
      && s.queue == []
      && s.delivered + s.definiteLoss + s.unconfirmed == s.log.calls + |s.log.generated|
      && (i < |s.log.givenUp| ==> ShownBy(s.log.generated, s.log.givenUp[i]))
  {
    InitialHolds(o);
    RunsKeep(o, clock, INITIAL, steps);
    var s := After(o, clock, INITIAL, steps);
    if i < |s.log.givenUp| {
      assert Covered(s.losses, s.log.generated, s.log.givenUp[i]);
    }
  }

  /** No attempt is decided, and `close()` does not stop waiting. */
  predicate Undecided(steps: seq<Action>) {
    forall k :: 0 <= k < |steps| ==> !steps[k].SendOk? && !steps[k].SendFail? && !steps[k].CloseFinish?
  }

  lemma BatchStep(o: Options, clock: Clock, s: State, a: Action)
    requires o.Valid() && Inv(o, s) && Enabled(s, a) && s.inFlight > 0 && !s.finished && Undecided([a])
    ensures var t := Next(o, clock, s, a);
      t.inFlight == s.inFlight && !t.finished && s.queue <= t.queue && Batch(t) == Batch(s)
  {
    assert [a][0] == a;
    hide Emitted, Recorded, SendBegun, SendFailed, CloseFinished, Ok, Grew;
    match a {
      case Record(input) => RecordedKeeps(o, clock, s, input);
      case Flush(draining) =>
        OkAndExempt(o, s);
        EmittedKeeps(o, clock, s, draining, 0, Exempt(s));
        GrewFacts(s, Emitted(o, clock, s, draining), {});
      case CloseBegin =>
        OkAndExempt(o, s);
        EmittedKeeps(o, clock, s.(accepting := false), true, 0, Exempt(s));
        GrewFacts(s.(accepting := false), Emitted(o, clock, s.(accepting := false), true), {});
      case _ =>
    }
  }

  lemma OkAndExempt(o: Options, s: State)
    requires Inv(o, s)
    ensures Ok(o, s, 0, Exempt(s)) && Ok(o, s.(accepting := false), 0, Exempt(s))
  {
  }

  lemma {:induction false} BatchStays(o: Options, clock: Clock, s: State, steps: seq<Action>)
    requires o.Valid() && Inv(o, s) && s.inFlight > 0 && !s.finished
    requires Legal(o, clock, s, steps) && Undecided(steps)
    ensures var t := After(o, clock, s, steps);
      t.inFlight == s.inFlight && !t.finished && Batch(t) == Batch(s)
    decreases |steps|
  {
    hide Next, Inv, Batch;
    if steps != [] {
      assert steps[0] == [steps[0]][0];
      assert forall k :: 0 <= k < |steps[1..]| ==> steps[1..][k] == steps[k + 1];
      BatchStep(o, clock, s, steps[0]);
      NextKeeps(o, clock, s, steps[0]);
      BatchStays(o, clock, Next(o, clock, s, steps[0]), steps[1..]);
    }
  }

  /** While an attempt is in flight, and whatever is recorded, counted or turned into evidence
      meanwhile, the front of the queue is the batch that was handed to the transport; so an
      acknowledgement takes exactly that batch off, and leaves what came behind it. */
  lemma BatchIsPrefix(o: Options, clock: Clock, steps: seq<Action>, more: seq<Action>)
    requires o.Valid() && Legal(o, clock, INITIAL, steps)
    requires var s := After(o, clock, INITIAL, steps);
      s.inFlight > 0 && !s.finished && Legal(o, clock, s, more) && Undecided(more)
    ensures var s := After(o, clock, INITIAL, steps);
      var t := After(o, clock, s, more);
      && |Batch(s)| == s.inFlight
      && t.queue == Batch(s) + SendSucceeded(t).queue
      && SendSucceeded(t).delivered == t.delivered + |Batch(s)|
  {
    InitialHolds(o);
    RunsKeep(o, clock, INITIAL, steps);
    hide Inv, After, Legal, SendSucceeded, Batch, Undecided;
    var s := After(o, clock, INITIAL, steps);
    BatchStays(o, clock, s, more);
    RunsKeep(o, clock, s, more);
    BatchGoes(o, s);
    BatchGoes(o, After(o, clock, s, more));
  }

  /** An acknowledgement splits the queue at the end of the batch. */
  lemma BatchGoes(o: Options, s: State)
    requires Inv(o, s) && !s.finished
    ensures |Batch(s)| == s.inFlight && s.queue == Batch(s) + SendSucceeded(s).queue
    ensures SendSucceeded(s).delivered == s.delivered + |Batch(s)|
  {
    hide Ok;
  }

  lemma StoredStays(o: Options, clock: Clock, s: State, a: Action)
    requires o.Valid() && Inv(o, s) && Enabled(s, a)
    ensures s.log.stored <= Next(o, clock, s, a).log.stored
  {
    hide Inv, Ok, Grew, Emitted, EmittedFrom, Recorded, Expired, Marked, CloseFinished;
    match a {
      case Record(input) => RecordedKeeps(o, clock, s, input);
      case Flush(draining) => EmissionStores(o, clock, s, draining);
      case SendBegin(due) => StartsInOrder(o, s); ExpiredKeeps(o, clock, s, 0, |s.queue|);
      case SendFail(ambiguous) => FailureStores(o, clock, s, ambiguous);
      case CloseBegin => EmissionStores(o, clock, s, true);
      case CloseFinish => CloseFinishedKeeps(o, clock, s);
      case _ =>
    }
  }

  lemma StartsInOrder(o: Options, s: State)
    requires Inv(o, s) && !s.finished && s.inFlight == 0
    ensures Ok(o, s, 0, 0)
  {
  }

  lemma EmissionStores(o: Options, clock: Clock, s: State, all: bool)
    requires o.Valid() && Inv(o, s)
    ensures Emitted(o, clock, s, all).log.stored == s.log.stored
    ensures Emitted(o, clock, s.(accepting := false), all).log.stored == s.log.stored
  {
    assert Ok(o, s, 0, Exempt(s)) && Ok(o, s.(accepting := false), 0, Exempt(s));
    hide Ok, Emitted;
    EmittedKeeps(o, clock, s, all, 0, Exempt(s));
    EmittedKeeps(o, clock, s.(accepting := false), all, 0, Exempt(s));
  }

  lemma FailureStores(o: Options, clock: Clock, s: State, ambiguous: bool)
    requires o.Valid() && Inv(o, s) && (ambiguous || !s.log.attemptStored)
    ensures SendFailed(o, clock, s, ambiguous).log.stored == s.log.stored
  {
    if !s.finished {
      RefusedKeeps(o, s, ambiguous);
      var idle := Refused(s, ambiguous);
      MarkedKeeps(o, clock, idle, 0, s.inFlight, ambiguous);
      var n := Marked(o, clock, idle, 0, s.inFlight, ambiguous);
      hide Ok, Emitted, Marked;
      if !n.hung { EmittedKeeps(o, clock, n, !n.accepting, 0, 0); }
    }
  }

  /** What a step of the run stored, in time or late, is never a definite loss. */
  lemma {:induction false} StoredIsNotLost(o: Options, clock: Clock, s: State, steps: seq<Action>, i: nat, serial: nat)
    requires o.Valid() && Inv(o, s) && Legal(o, clock, s, steps)
    requires (i < |steps| && steps[i] in {Store(serial), StoreLate(serial)}) || serial in s.log.stored
    ensures serial !in After(o, clock, s, steps).log.definite
    decreases |steps|
  {
    if steps != [] {
      hide Next, Ok;
      NextKeeps(o, clock, s, steps[0]);
      StoredStays(o, clock, s, steps[0]);
      StoresIt(o, clock, s, steps[0], serial);
      hide Inv;
      StoredIsNotLost(o, clock, Next(o, clock, s, steps[0]), steps[1..], if i > 0 then i - 1 else |steps|, serial);
    }
  }

  lemma StoresIt(o: Options, clock: Clock, s: State, a: Action, serial: nat)
    requires o.Valid() && Enabled(s, a)
    ensures a in {Store(serial), StoreLate(serial)} ==> serial in Next(o, clock, s, a).log.stored
  {
  }

  /** An entry counted as a definite loss was stored by no step of the run, not even by an attempt
      still running when the recorder was closed; and the definite losses are exactly these entries and
      the invalid calls. */
  lemma DefiniteLossIsSound(o: Options, clock: Clock, steps: seq<Action>)
    requires o.Valid() && Legal(o, clock, INITIAL, steps)
    ensures var s := After(o, clock, INITIAL, steps);
      && s.log.definite !! s.log.stored
      && (forall i, x: nat :: 0 <= i < |steps| && (steps[i] == Store(x) || steps[i] == StoreLate(x)) ==>
            x !in s.log.definite)
      && s.definiteLoss == |s.log.definite| + CountOf(s.lost, "invalid")
  {
    InitialHolds(o);
    RunsKeep(o, clock, INITIAL, steps);
    forall i, x: nat | 0 <= i < |steps| && (steps[i] == Store(x) || steps[i] == StoreLate(x))
      ensures x !in After(o, clock, INITIAL, steps).log.definite
    {
      StoredIsNotLost(o, clock, INITIAL, steps, i, x);
    }
  }

  /** No silent gap: at any moment a record given up on is in a counter of its session or of all
      sessions, or every query that would have returned it returns a loss record instead. */
  lemma NoSilentGap(o: Options, clock: Clock, steps: seq<Action>, i: nat, q: Query)
    requires o.Valid() && Legal(o, clock, INITIAL, steps)
    requires var gs := After(o, clock, INITIAL, steps).log.givenUp;
      i < |gs| && Matches(gs[i].record, q)
    ensures var s := After(o, clock, INITIAL, steps);
      CountedBy(s.losses, s.log.givenUp[i]) ||
      exists k :: 0 <= k < |s.log.generated| && Shows(s.log.generated[k], s.log.givenUp[i]) &&
        Matches(s.log.generated[k], q)
  {
    InitialHolds(o);
    RunsKeep(o, clock, INITIAL, steps);
    var s := After(o, clock, INITIAL, steps);
    var g := s.log.givenUp[i];
    assert Covered(s.losses, s.log.generated, g);
    if ShownBy(s.log.generated, g) {
      var k :| 0 <= k < |s.log.generated| && Shows(s.log.generated[k], g);
      EvidenceMatches(s.log.generated[k], g, q);
    }
  }

  /** The counters and the loss records together report, per kind, exactly how many records were
      given up on. */
  lemma LossTotalsExact(o: Options, clock: Clock, steps: seq<Action>, kind: string)
    requires o.Valid() && Legal(o, clock, INITIAL, steps)
    ensures var s := After(o, clock, INITIAL, steps);
      Total(s.losses, kind) + TotalEvidence(s.log.generated, kind) == TotalGivenUp(s.log.givenUp, kind)
  {
    InitialHolds(o);
    RunsKeep(o, clock, INITIAL, steps);
  }
}
