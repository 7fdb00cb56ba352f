/**
 Where the guarantees of `RecorderClock` end.

 The eviction loop: with a clock that never goes back it can run forever exactly when there is room
 for a single counter, because a window can end between two readings of the clock in one call. With a
 clock that goes back, each lost call can open a window of its own, and no room is enough.

 The ids of loss records: with any clock, an id can be used twice exactly when there is room for more
 than one counter. When the clock goes back within one pass over the counters, the pass converts the
 global counter of a window and leaves one of a session in the same window; later eviction makes
 that one global again, under the id that was already used.
 */
module ClockLimits {

  import opened Wrappers
  import opened UsageSpec
  import opened RecorderClock

  function Call(session: string): Action {
    Record(Snapshot("", Some(0), Some(session), "llm.call", None))
  }

  /** A pass that finds nothing due. */
  lemma {:induction false} NothingDue(o: Options, clock: Clock, s: State, i: nat)
    requires forall k :: i <= k < |s.losses| ==> s.losses[k].start + o.lossWindowMs > clock(s.tick + k - i)
    ensures EmittedFrom(o, clock, s, i, false) == s.(tick := s.tick + if i < |s.losses| then |s.losses| - i else 0)
    decreases |s.losses| - i
  {
    if i < |s.losses| {
      NothingDue(o, clock, s.(tick := s.tick + 1), i + 1);
    }
  }

  /** A call on a full queue is charged to a counter of its session; `n` counters are looked at
      twice, and the last of the readings decides the window. */
  lemma FullCall(o: Options, clock: Clock, s: State, session: string)
    requires o.Valid() && s.accepting && !s.hung && |s.queue| >= o.queueLimit
    requires forall k :: 0 <= k < |s.losses| ==>
      && s.losses[k].start + o.lossWindowMs > clock(s.tick + k)
      && s.losses[k].start + o.lossWindowMs > clock(s.tick + |s.losses| + 1 + k)
    ensures var t, n := Next(o, clock, s, Call(session)), |s.losses|;
      var start := AtLeast(s.closedThrough, o.Window(clock(s.tick + 2 * n + 1)));
      && Charges(o, s, t, s.losses, start, session)
      && t.closedThrough == s.closedThrough && t.tick == s.tick + 2 * n + 2 && t.log.generated == s.log.generated
  {
    hide Accounted, Evicted, Counted, EmittedFrom, Starts;
    var n := |s.losses|;
    var called := s.(log := s.log.(calls := s.log.calls + 1));
    NothingDue(o, clock, called, 0);
    var seen := called.(tick := s.tick + n);
    var record := UsageRecord(Given(""), 0, Some(session), "llm.call", None);
    var e := Entry(s.log.entries, record, clock(seen.tick), false, 0);
    var made := seen.(tick := seen.tick + 1, log := Made(seen.log, record));
    FullAccount(o, clock, made, e);
    assert Emitted(o, clock, called, false) == seen;
    assert Next(o, clock, s, Call(session)) == Accounted(o, clock, made, e, "overflow");
  }

  lemma FullAccount(o: Options, clock: Clock, s: State, e: Entry)
    requires o.Valid() && e.record.kind != LOST_KIND && !s.hung
    requires forall k :: 0 <= k < |s.losses| ==> s.losses[k].start + o.lossWindowMs > clock(s.tick + k)
    ensures var t, n := Accounted(o, clock, s, e, "overflow"), |s.losses|;
      var start := AtLeast(s.closedThrough, o.Window(clock(s.tick + n)));
      var c := Counted(s.losses, start, SessionOf(e.record), e.record.at, KindOf(e));
      && t.losses == Evicted(c, o.maxLossCounters) && t.hung == (|Starts(c)| > o.maxLossCounters)
      && t.queue == s.queue && t.accepting == s.accepting && t.finished == s.finished
      && t.closedThrough == s.closedThrough && t.tick == s.tick + n + 1 && t.log.generated == s.log.generated
  {
    hide Evicted, Counted, EmittedFrom, Starts;
    var f := Forfeited(s, e, "overflow");
    NothingDue(o, clock, f, 0);
    assert Emitted(o, clock, f, false) == f.(tick := s.tick + |s.losses|);
  }

  ghost predicate Charges(o: Options, s: State, t: State, ls: seq<Loss>, start: int, session: string) {
    var c := Counted(ls, start, session, 0, "llm.call");
    && t.losses == Evicted(c, o.maxLossCounters) && t.hung == (|Starts(c)| > o.maxLossCounters)
    && t.queue == s.queue && t.accepting == s.accepting && t.finished == s.finished
  }

  // ---------------------------------------------------------------------------------------
  // A loop that never ends.
  // ---------------------------------------------------------------------------------------

  /** A clock that never goes back: the n-th reading falls into the next window. */
  function ZeroThen(n: nat, window: int): Clock {
    (k: nat) => if k < n then 0 else window
  }

  function Calls(session: string, n: nat): seq<Action> {
    seq(n, _ => Call(session))
  }

  /** A queue of `n` entries, nothing lost, and one reading of the clock for each entry. */
  ghost predicate Filled(s: State, n: nat) {
    && s.accepting && !s.hung && !s.finished && |s.queue| == n && s.inFlight == 0
    && s.losses == [] && s.tick == n && s.closedThrough.None? && s.log.generated == []
  }

  lemma CallFills(o: Options, clock: Clock, s: State, n: nat)
    requires o.Valid() && Filled(s, n) && n < o.queueLimit
    ensures Filled(Next(o, clock, s, Call("x")), n + 1)
  {
  }

  /** Calls that are not sent fill the queue up to its limit. */
  lemma {:induction false} CallsFill(o: Options, clock: Clock, n: nat) returns (s: State)
    requires o.Valid() && n <= o.queueLimit
    ensures Reached(o, clock, Calls("x", n), s) && Filled(s, n)
  {
    hide Next, Reached;
    if n == 0 {
      s := INITIAL;
      assert Calls("x", 0) == [];
      NoSteps(o, clock);
    } else {
      var before := CallsFill(o, clock, n - 1);
      s := Next(o, clock, before, Call("x"));
      CallFills(o, clock, before, n - 1);
      assert Calls("x", n) == Calls("x", n - 1) + [Call("x")];
      ReachCall(o, clock, Calls("x", n - 1), before, "x", Calls("x", n));
    }
  }

  /** With room for one counter, whatever the other options: fill the queue, lose a call, and let the
      window end between two readings of the next lost call. The clock never goes back, and the
      eviction loop never ends. */
  lemma OneCounterMayHang(o: Options) returns (clock: Clock, steps: seq<Action>)
    requires o.Valid() && o.maxLossCounters == 1
    ensures Monotone(clock) && Legal(o, clock, INITIAL, steps) && After(o, clock, INITIAL, steps).hung
  {
    hide Next, Counted, Evicted, Legal, After, Starts, Reached;
    var n, w := o.queueLimit, o.lossWindowMs;
    clock := ZeroThen(n + 5, w);
    var s1 := CallsFill(o, clock, n);
    ZeroWindow(o);
    FullCall(o, clock, s1, "a");
    var s2 := Next(o, clock, s1, Call("a"));
    FirstCharge(s2.losses, 0, "a", 1);
    FullCall(o, clock, s2, "b");
    var s3 := Next(o, clock, s2, Call("b"));
    SecondCharge(s2.losses, w, "b");
    var filled := Calls("x", n);
    ReachCall(o, clock, filled, s1, "a", filled + [Call("a")]);
    steps := filled + [Call("a")] + [Call("b")];
    ReachCall(o, clock, filled + [Call("a")], s2, "b", steps);
    ReachedIs(o, clock, steps, s3);
  }

  lemma ZeroWindow(o: Options)
    requires o.Valid()
    ensures o.Window(0) == 0 && o.Window(o.lossWindowMs) == o.lossWindowMs
  {
    assert o.lossWindowMs / o.lossWindowMs == 1;
  }

  lemma ReachedIs(o: Options, clock: Clock, steps: seq<Action>, s: State)
    requires o.Valid() && Reached(o, clock, steps, s)
    ensures Legal(o, clock, INITIAL, steps) && After(o, clock, INITIAL, steps) == s
  {
  }

  /** A recorder never hangs under any clock that does not go back if and only if it has room for at
      least two loss counters. */
  lemma HangsOnlyWithOneCounter(o: Options)
    requires o.Valid()
    ensures (forall clock: Clock, steps: seq<Action> ::
               Monotone(clock) && Legal(o, clock, INITIAL, steps) ==> !After(o, clock, INITIAL, steps).hung)
            <==> o.maxLossCounters >= 2
  {
    hide Legal, After, Monotone;
    if o.maxLossCounters >= 2 {
      forall clock: Clock, steps: seq<Action> | Monotone(clock) && Legal(o, clock, INITIAL, steps)
        ensures !After(o, clock, INITIAL, steps).hung
      {
        NeverHangs(o, clock, steps);
      }
    } else {
      var clock, steps := OneCounterMayHang(o);
    }
  }

  // ---------------------------------------------------------------------------------------
  // Charges to few counters, and runs step by step.
  // ---------------------------------------------------------------------------------------

  lemma FirstCharge(ls: seq<Loss>, start: int, session: string, max: nat)
    requires ls == Evicted(Counted([], start, session, 0, "llm.call"), max) && max > 0
    ensures |ls| == 1 && ls[0].start == start && ls[0].session == session
    ensures |Starts(Counted([], start, session, 0, "llm.call"))| == 1
  {
    var c := Counted([], start, session, 0, "llm.call");
    assert |c| == 1 && c == [c[0]];
    OneStart(c[0]);
  }

  lemma SecondCharge(ls: seq<Loss>, start: int, session: string)
    requires |ls| == 1 && ls[0].start != start
    ensures |Starts(Counted(ls, start, session, 0, "llm.call"))| >= 2
  {
    TwoStarts(Counted(ls, start, session, 0, "llm.call"));
  }

  lemma OneStart(l: Loss)
    ensures |Starts([l])| == 1
  {
    assert Starts([l]) == {l.start};
  }

  lemma TwoStarts(ls: seq<Loss>)
    requires |ls| >= 2 && ls[0].start != ls[1].start
    ensures |Starts(ls)| >= 2
  {
    var two := {ls[0].start, ls[1].start};
    assert ls[0] in ls && ls[1] in ls;
    SubsetSize(two, Starts(ls));
  }

  lemma {:induction false} OneMoreStep(o: Options, clock: Clock, s: State, steps: seq<Action>, a: Action)
    requires o.Valid() && Legal(o, clock, s, steps) && Enabled(After(o, clock, s, steps), a)
    ensures Legal(o, clock, s, steps + [a])
    ensures After(o, clock, s, steps + [a]) == Next(o, clock, After(o, clock, s, steps), a)
    decreases |steps|
  {
    hide Next, Enabled;
    if steps == [] {
      assert [a][1..] == [];
      assert steps + [a] == [a];
      assert Legal(o, clock, Next(o, clock, s, a), [a][1..]);
    } else {
      assert (steps + [a])[0] == steps[0] && (steps + [a])[1..] == steps[1..] + [a];
      OneMoreStep(o, clock, Next(o, clock, s, steps[0]), steps[1..], a);
    }
  }

  ghost predicate Reached(o: Options, clock: Clock, steps: seq<Action>, s: State)
    requires o.Valid()
  {
    Legal(o, clock, INITIAL, steps) && After(o, clock, INITIAL, steps) == s
  }

  lemma NoSteps(o: Options, clock: Clock)
    requires o.Valid()
    ensures Reached(o, clock, [], INITIAL)
  {
  }

  lemma Reach(o: Options, clock: Clock, steps: seq<Action>, s: State, a: Action, longer: seq<Action>)
    requires o.Valid() && Reached(o, clock, steps, s) && Enabled(s, a) && longer == steps + [a]
    ensures Reached(o, clock, longer, Next(o, clock, s, a))
  {
    hide Next, Enabled;
    OneMoreStep(o, clock, INITIAL, steps, a);
  }

  // ---------------------------------------------------------------------------------------
  // A clock that goes back: no room is enough.
  // ---------------------------------------------------------------------------------------

  /** Each reading of the clock is one window before the last one. */
  function Falling(w: int): Clock {
    (k: nat) => Times(-(k as int), w)
  }

  lemma FallingIs(o: Options, i: nat, j: nat)
    requires o.Valid()
    ensures i < j ==> Falling(o.lossWindowMs)(j) < Falling(o.lossWindowMs)(i)
    ensures o.Window(Falling(o.lossWindowMs)(i)) == Falling(o.lossWindowMs)(i)
  {
    TimesMonotone(-(j as int), -(i as int) - 1, o.lossWindowMs);
    TimesMonotone(-(i as int) - 1, -(i as int) - 1, o.lossWindowMs);
    var t := Falling(o.lossWindowMs)(i);
    assert t == Times(-(i as int), o.lossWindowMs);
    WindowBounds(o, t);
    WindowIsLast(o, t, t);
  }

  /** `j` lost calls have made one counter each, all of different windows that end after now. */
  ghost predicate Scattered(o: Options, s: State, j: nat) {
    && s.accepting && !s.hung && |s.queue| >= o.queueLimit && s.closedThrough.None?
    && |s.losses| == j && |Starts(s.losses)| == j
    && forall l :: l in s.losses ==> l.start > Falling(o.lossWindowMs)(s.tick)
  }

  lemma NewWindow(ls: seq<Loss>, start: int, session: string)
    requires forall l :: l in ls ==> l.start > start
    ensures var c := Counted(ls, start, session, 0, "llm.call");
      && |c| == |ls| + 1 && |Starts(c)| == |Starts(ls)| + 1
      && forall l :: l in c ==> l.start >= start
  {
    var c := Counted(ls, start, session, 0, "llm.call");
    assert forall k :: 0 <= k < |ls| ==> ls[k] in ls;
    assert c == ls + [c[|ls|]];
    assert Starts(c) == Starts(ls) + {start} by {
      assert c[|ls|] in c;
      assert forall l :: l in ls ==> l in c;
    }
  }

  lemma ScatteredCall(o: Options, s: State, j: nat)
    requires o.Valid() && Scattered(o, s, j) && j <= o.maxLossCounters
    ensures var t := Next(o, Falling(o.lossWindowMs), s, Call("a"));
      if j < o.maxLossCounters then Scattered(o, t, j + 1) else t.hung
  {
    hide Next, Evicted, Counted, Starts, Falling, Options.Window;
    var clock := Falling(o.lossWindowMs);
    forall k, i: nat | 0 <= k < |s.losses| && i >= s.tick
      ensures s.losses[k].start + o.lossWindowMs > clock(i)
    {
      assert s.losses[k] in s.losses;
      FallingIs(o, s.tick, i);
    }
    FullCall(o, clock, s, "a");
    var t, last := Next(o, clock, s, Call("a")), s.tick + 2 * j + 1;
    FallingIs(o, s.tick, last);
    FallingIs(o, last, last + 1);
    NewWindow(s.losses, clock(last), "a");
    var c := Counted(s.losses, clock(last), "a", 0, "llm.call");
    EvictedTurn(c, o.maxLossCounters);
  }

  lemma {:induction false} ScatteredRun(o: Options, j: nat) returns (s: State, steps: seq<Action>)
    requires o.Valid() && j <= o.maxLossCounters
    ensures Reached(o, Falling(o.lossWindowMs), steps, s) && Scattered(o, s, j)
    decreases j
  {
    hide Next, Reached;
    var clock := Falling(o.lossWindowMs);
    if j == 0 {
      s := CallsFill(o, clock, o.queueLimit);
      steps := Calls("x", o.queueLimit);
      assert Starts([]) == {};
    } else {
      var before, shorter := ScatteredRun(o, j - 1);
      ScatteredCall(o, before, j - 1);
      steps := shorter + [Call("a")];
      ReachCall(o, clock, shorter, before, "a", steps);
      s := Next(o, clock, before, Call("a"));
    }
  }

  /** Whatever the options are: a clock that goes back one window per reading lets each lost call open
      a window of its own, until there are more than there is room for. */
  lemma AnyRoomMayHang(o: Options) returns (clock: Clock, steps: seq<Action>)
    requires o.Valid()
    ensures Legal(o, clock, INITIAL, steps) && After(o, clock, INITIAL, steps).hung
  {
    hide Next, Legal, After, Reached;
    clock := Falling(o.lossWindowMs);
    var s, shorter := ScatteredRun(o, o.maxLossCounters);
    ScatteredCall(o, s, o.maxLossCounters);
    steps := shorter + [Call("a")];
    ReachCall(o, clock, shorter, s, "a", steps);
    ReachedIs(o, clock, steps, Next(o, clock, s, Call("a")));
  }

  // ---------------------------------------------------------------------------------------
  // An id used twice.
  // ---------------------------------------------------------------------------------------

  /** A clock that is once at the end of the first window, and before and after that at its start. */
  function Spike(n: nat, window: int): Clock {
    (k: nat) => if k == n then window else 0
  }

  /** One session for each number. */
  function Session(k: nat): string { seq(k + 1, _ => 's') }

  ghost predicate HasCounter(ls: seq<Loss>, start: int, session: string) {
    exists k :: 0 <= k < |ls| && ls[k].start == start && ls[k].session == session
  }

  lemma EvictedTurn(ls: seq<Loss>, max: nat)
    ensures |ls| <= max ==> Evicted(ls, max) == ls
    ensures |ls| > max && |Starts(ls)| <= max && ls[0].session != "" ==> Evicted(ls, max) == Evicted(EvictOne(ls), max)
  {
  }

  lemma CountedNew(ls: seq<Loss>, start: int, session: string)
    requires !HasCounter(ls, start, session)
    ensures var c := Counted(ls, start, session, 0, "llm.call");
      |c| == |ls| + 1 && c[..|ls|] == ls && c[|ls|].start == start && c[|ls|].session == session
  {
  }

  lemma StartsTwo(ls: seq<Loss>, a: int, b: int)
    requires forall k :: 0 <= k < |ls| ==> ls[k].start == a || ls[k].start == b
    ensures |Starts(ls)| <= 2
  {
    forall x | x in Starts(ls)
      ensures x == a || x == b
    {
      var l :| l in ls && l.start == x;
    }
    AtMostTwo(Starts(ls), a, b);
  }

  /** A turn of the loop makes the oldest counter global, and global counters stay. */
  lemma EvictOneGlobal(ls: seq<Loss>, start: int)
    requires ls != [] && (ls[0].start == start || HasCounter(ls, start, ""))
    ensures HasCounter(EvictOne(ls), start, "")
  {
    var rest, r := ls[1..], EvictOne(ls);
    var k := FindLoss(rest, ls[0].start, "");
    if ls[0].start == start {
      assert r[k].start == start && r[k].session == "";
    } else {
      var i :| 0 <= i < |ls| && ls[i].start == start && ls[i].session == "";
      assert r[i - 1].start == start && r[i - 1].session == "";
    }
  }

  lemma {:induction false} EvictedGlobal(ls: seq<Loss>, max: nat, start: int)
    requires HasCounter(ls, start, "")
    ensures HasCounter(Evicted(ls, max), start, "")
    decreases Scoped(ls), Lead(ls)
  {
    hide EvictOne, Starts, HasCounter;
    if !(|ls| <= max || |Starts(ls)| > max || Scoped(ls) == 0) {
      EvictOneProgress(ls);
      EvictOneGlobal(ls, start);
      EvictedGlobal(EvictOne(ls), max, start);
    }
  }

  /** A pass that keeps the first of two counters and converts the second. */
  lemma SecondIsDue(o: Options, clock: Clock, s: State)
    requires o.Valid() && |s.losses| == 2
    requires s.losses[0].start + o.lossWindowMs > clock(s.tick)
    requires s.losses[1].start + o.lossWindowMs <= clock(s.tick + 1)
    ensures var t := Emitted(o, clock, s, false);
      && t.losses == [s.losses[0]] && t.tick == s.tick + 4 && |t.queue| >= |s.queue| && t.hung == s.hung
      && t.accepting == s.accepting
      && t.closedThrough == Some(AtLeast(s.closedThrough, s.losses[1].start + o.lossWindowMs))
      && t.log.generated == s.log.generated + [LossRecord(s.losses[1], clock(s.tick + 2))]
  {
    var checked := s.(tick := s.tick + 2);
    EmittedOneLedger(o, clock, checked, 1);
    var t := EmittedOne(o, clock, checked, 1);
    assert |t.queue| >= |s.queue| && t.accepting == s.accepting;
    hide EmittedOne;
    assert t.losses == [s.losses[0]];
    assert EmittedFrom(o, clock, t, 1, false) == t;
    assert EmittedFrom(o, clock, s.(tick := s.tick + 1), 1, false) == t;
    assert EmittedFrom(o, clock, s, 0, false) == t;
  }

  /** Both calls are lost in the first window, and the pass after them converts only the global one:
      a counter of session `a` is left in a window that has a loss record. Then `j` calls of as many
      sessions are lost, in the next window. */
  ghost predicate Split(o: Options, s: State, j: nat) {
    && s.accepting && !s.hung && |s.queue| >= o.queueLimit && s.closedThrough == Some(o.lossWindowMs)
    && |s.losses| == j + 1 && s.losses[0].start == 0 && s.losses[0].session == "a"
    && (forall k :: 1 <= k <= j ==> s.losses[k].start == o.lossWindowMs && s.losses[k].session == Session(k))
    && |s.log.generated| == 1 && s.log.generated[0].id == LostId("", 0)
  }

  ghost predicate ZeroFrom(clock: Clock, n: nat) {
    forall k: nat :: k >= n ==> clock(k) == 0
  }

  /** One more lost call, of a session that has no counter yet. */
  lemma SplitCall(o: Options, clock: Clock, s: State, j: nat) returns (c: seq<Loss>)
    requires o.Valid() && o.maxLossCounters >= 2 && Split(o, s, j) && ZeroFrom(clock, s.tick)
    ensures |c| == j + 2 && c[..j + 1] == s.losses && |Starts(c)| <= 2
    ensures c[j + 1].start == o.lossWindowMs && c[j + 1].session == Session(j + 1)
    ensures var t := Next(o, clock, s, Call(Session(j + 1)));
      && t.losses == Evicted(c, o.maxLossCounters) && !t.hung && t.accepting && t.queue == s.queue
      && t.closedThrough == s.closedThrough && t.tick >= s.tick && t.log.generated == s.log.generated
  {
    hide Next, Evicted, Counted, Starts, Options.Window;
    ZeroWindow(o);
    FullCall(o, clock, s, Session(j + 1));
    assert forall k :: 1 <= k <= j ==> |Session(k)| != |Session(j + 1)|;
    CountedNew(s.losses, o.lossWindowMs, Session(j + 1));
    c := Counted(s.losses, o.lossWindowMs, Session(j + 1), 0, "llm.call");
    assert forall k :: 0 <= k <= j ==> c[k] == c[..j + 1][k] == s.losses[k];
    StartsTwo(c, 0, o.lossWindowMs);
  }

  lemma SplitMore(o: Options, clock: Clock, s: State, j: nat)
    requires o.Valid() && Split(o, s, j) && ZeroFrom(clock, s.tick) && j + 1 < o.maxLossCounters
    ensures Split(o, Next(o, clock, s, Call(Session(j + 1))), j + 1)
    ensures Next(o, clock, s, Call(Session(j + 1))).tick >= s.tick
  {
    hide Next, Evicted, Starts;
    var c := SplitCall(o, clock, s, j);
    EvictedTurn(c, o.maxLossCounters);
    assert forall k :: 0 <= k <= j ==> c[k] == c[..j + 1][k];
  }

  /** When there is no room for a counter more, the one of session `a` becomes global again. */
  lemma GlobalAgain(o: Options, clock: Clock, s: State)
    requires o.Valid() && o.maxLossCounters >= 2 && Split(o, s, o.maxLossCounters - 1) && ZeroFrom(clock, s.tick)
    ensures var t := Next(o, clock, s, Call(Session(o.maxLossCounters)));
      && HasCounter(t.losses, 0, "") && !t.hung && t.accepting && t.log.generated == s.log.generated
  {
    hide Next, Evicted, Starts, HasCounter;
    var c := SplitCall(o, clock, s, o.maxLossCounters - 1);
    assert c[0] == c[..o.maxLossCounters][0] == s.losses[0];
    EvictedTurn(c, o.maxLossCounters);
    EvictOneGlobal(c, 0);
    EvictedGlobal(EvictOne(c), o.maxLossCounters, 0);
  }

  /** Up to the pass that converts one of two counters. */
  lemma SplitFirst(o: Options) returns (s: State, steps: seq<Action>)
    requires o.Valid() && o.maxLossCounters >= 2
    ensures Reached(o, Spike(o.queueLimit + 7, o.lossWindowMs), steps, s)
    ensures Split(o, s, 0) && s.tick == o.queueLimit + 10
  {
    hide Next, Reached, Emitted, Starts, Evicted, Counted, Options.Window;
    var n, clock := o.queueLimit, Spike(o.queueLimit + 7, o.lossWindowMs);
    var s1 := CallsFill(o, clock, n);
    ZeroWindow(o);
    FullCall(o, clock, s1, "a");
    var s2 := Next(o, clock, s1, Call("a"));
    FirstCharge(s2.losses, 0, "a", o.maxLossCounters);
    FullCall(o, clock, s2, "");
    var s3 := Next(o, clock, s2, Call(""));
    TwoCharges(o, s2, s3);
    SecondIsDue(o, clock, s3);
    var filled := Calls("x", n);
    ReachCall(o, clock, filled, s1, "a", filled + [Call("a")]);
    ReachCall(o, clock, filled + [Call("a")], s2, "", filled + [Call("a")] + [Call("")]);
    steps := filled + [Call("a")] + [Call("")] + [Flush(false)];
    s := Emitted(o, clock, s3, false);
    ReachFlush(o, clock, filled + [Call("a")] + [Call("")], s3, steps);
  }

  lemma TwoCharges(o: Options, s: State, t: State)
    requires o.maxLossCounters >= 2 && Charges(o, s, t, s.losses, 0, "")
    requires |s.losses| == 1 && s.losses[0].start == 0 && s.losses[0].session == "a"
    ensures |t.losses| == 2 && t.losses[0] == s.losses[0] && !t.hung
    ensures t.losses[1].start == 0 && t.losses[1].session == ""
  {
    hide Evicted, Counted, Starts;
    CountedNew(s.losses, 0, "");
    var c := Counted(s.losses, 0, "", 0, "llm.call");
    EvictedTurn(c, o.maxLossCounters);
    assert c[0] == c[..1][0];
    StartsTwo(c, 0, 0);
  }

  lemma {:induction false} SplitRun(o: Options, j: nat) returns (s: State, steps: seq<Action>)
    requires o.Valid() && j < o.maxLossCounters && o.maxLossCounters >= 2
    ensures Reached(o, Spike(o.queueLimit + 7, o.lossWindowMs), steps, s)
    ensures Split(o, s, j) && s.tick >= o.queueLimit + 10
    decreases j
  {
    hide Next, Reached;
    if j == 0 {
      s, steps := SplitFirst(o);
    } else {
      var clock := Spike(o.queueLimit + 7, o.lossWindowMs);
      var before, shorter := SplitRun(o, j - 1);
      SplitMore(o, clock, before, j - 1);
      steps := shorter + [Call(Session(j))];
      ReachCall(o, clock, shorter, before, Session(j), steps);
      s := Next(o, clock, before, Call(Session(j)));
    }
  }

  /** Converting everything makes a record of every counter. */
  lemma {:induction false} AllConverted(o: Options, clock: Clock, s: State, start: int, session: string)
    ensures var t := EmittedFrom(o, clock, s, 0, true);
      && s.log.generated <= t.log.generated
      && (HasCounter(s.losses, start, session) ==>
            exists k :: |s.log.generated| <= k < |t.log.generated| && t.log.generated[k].id == LostId(session, start))
    decreases |s.losses|
  {
    hide EmittedOne;
    if s.losses != [] {
      EmittedOneLedger(o, clock, s, 0);
      var n, t := EmittedOne(o, clock, s, 0), EmittedFrom(o, clock, s, 0, true);
      AllConverted(o, clock, n, start, session);
      if HasCounter(s.losses, start, session) {
        var k :| 0 <= k < |s.losses| && s.losses[k].start == start && s.losses[k].session == session;
        if k == 0 {
          assert t.log.generated[|s.log.generated|].id == LostId(session, start);
        } else {
          assert n.losses[k - 1] == s.losses[k];
        }
      }
    }
  }

  lemma CloseConverts(o: Options, clock: Clock, s: State)
    requires o.Valid() && !s.hung && HasCounter(s.losses, 0, "")
    requires |s.log.generated| == 1 && s.log.generated[0].id == LostId("", 0)
    requires Enabled(s, CloseBegin)
    ensures !Next(o, clock, s, CloseBegin).hung && !DistinctIds(Next(o, clock, s, CloseBegin).log.generated)
  {
    hide EmittedFrom, HasCounter, Options.Window, AtLeast;
    var through := Some(AtLeast(s.closedThrough, o.Window(clock(s.tick)) + o.lossWindowMs));
    var begun := s.(accepting := false, closedThrough := through, tick := s.tick + 1);
    AllConverted(o, clock, begun, 0, "");
    var t := EmittedFrom(o, clock, begun, 0, true);
    assert t.log.generated[0] == s.log.generated[0];
  }

  /** With room for two counters or more, whatever the other options: when the clock goes back between
      the readings of one pass, the same window and session can be reported twice under one id, and
      a sink that keeps one record per id loses evidence. */
  lemma IdUsedTwice(o: Options) returns (clock: Clock, steps: seq<Action>)
    requires o.Valid() && o.maxLossCounters >= 2
    ensures Legal(o, clock, INITIAL, steps) && !After(o, clock, INITIAL, steps).hung
    ensures !DistinctIds(After(o, clock, INITIAL, steps).log.generated)
  {
    hide Next, Legal, After, Reached, HasCounter, DistinctIds;
    clock := Spike(o.queueLimit + 7, o.lossWindowMs);
    var s, before := SplitRun(o, o.maxLossCounters - 1);
    var last := Session(o.maxLossCounters);
    GlobalAgain(o, clock, s);
    var t := Next(o, clock, s, Call(last));
    ReachCall(o, clock, before, s, last, before + [Call(last)]);
    CloseConverts(o, clock, t);
    steps := before + [Call(last)] + [CloseBegin];
    Reach(o, clock, before + [Call(last)], t, CloseBegin, steps);
    ReachedIs(o, clock, steps, Next(o, clock, t, CloseBegin));
  }

  /** Under any clock, the ids of loss records are unique as long as the recorder does not hang if and
      only if it has room for one loss counter. */
  lemma IdsUniqueOnlyWithOneCounter(o: Options)
    requires o.Valid()
    ensures (forall clock: Clock, steps: seq<Action> ::
               Legal(o, clock, INITIAL, steps) && !After(o, clock, INITIAL, steps).hung ==>
                 DistinctIds(After(o, clock, INITIAL, steps).log.generated))
            <==> o.maxLossCounters == 1
  {
    hide Legal, After, DistinctIds;
    if o.maxLossCounters == 1 {
      forall clock: Clock, steps: seq<Action> |
        Legal(o, clock, INITIAL, steps) && !After(o, clock, INITIAL, steps).hung
        ensures DistinctIds(After(o, clock, INITIAL, steps).log.generated)
      {
        OneCounterRun(o, clock, INITIAL, steps);
        LossIdsUnique(o, clock, OneCounter, steps);
      }
    } else {
      var clock, steps := IdUsedTwice(o);
    }
  }

  lemma ReachCall(o: Options, clock: Clock, steps: seq<Action>, s: State, session: string, longer: seq<Action>)
    requires o.Valid() && Reached(o, clock, steps, s) && !s.hung && longer == steps + [Call(session)]
    ensures Enabled(s, Call(session)) && Reached(o, clock, longer, Next(o, clock, s, Call(session)))
  {
    hide Next;
    Reach(o, clock, steps, s, Call(session), longer);
  }

  lemma ReachFlush(o: Options, clock: Clock, steps: seq<Action>, s: State, longer: seq<Action>)
    requires o.Valid() && Reached(o, clock, steps, s) && !s.hung && longer == steps + [Flush(false)]
    ensures Reached(o, clock, longer, Emitted(o, clock, s, false))
  {
    hide Emitted, Legal, After;
    Reach(o, clock, steps, s, Flush(false), longer);
  }
}
