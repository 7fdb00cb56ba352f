/**
 What the usage recorder owes to its clock: that the eviction loop ends, and that a loss record's id
 (session and window start) is never used twice. Where both end is shown in `ClockLimits`.
 */
module RecorderClock {

  import opened Wrappers
  import opened UsageSpec
  import opened LossEvidence

  /** When ids are not used twice: the clock never goes back; or each step reads one single time, even
      if the clock goes back between steps; or there is room for one counter, whatever the clock does. */
  datatype Regime = NeverBack | OneTimePerStep | OneCounter

  ghost predicate Monotone(clock: Clock) {
    forall i: nat, j: nat :: i <= j ==> clock(i) <= clock(j)
  }

  /** The readings from `a` up to `b` follow the regime. */
  ghost predicate Regular(clock: Clock, regime: Regime, a: nat, b: nat) {
    match regime
    case NeverBack => Monotone(clock)
    case OneTimePerStep => forall i: nat :: a <= i < b ==> clock(i) == clock(a)
    case OneCounter => true
  }

  lemma RegularPart(clock: Clock, regime: Regime, a: nat, b: nat, a': nat, b': nat)
    requires Regular(clock, regime, a, b) && a <= a' <= b' <= b
    ensures Regular(clock, regime, a', b')
  {
  }

  /** Every loss record belongs to a window that was closed. */
  ghost predicate Closed(o: Options, rs: seq<UsageRecord>, through: Option<int>) {
    forall i :: 0 <= i < |rs| ==>
      rs[i].id.LostId? && through.Some? && rs[i].id.start + o.lossWindowMs <= through.value
  }

  /** No counter is left of a window that a loss record was made for. */
  ghost predicate Whole(ls: seq<Loss>, rs: seq<UsageRecord>) {
    forall l, i :: l in ls && 0 <= i < |rs| && rs[i].id.LostId? ==> l.start != rs[i].id.start
  }

  /** A counter may be left of such a window, but of another session and only if its window had
      already ended by the time `now`. */
  ghost predicate AlmostWhole(o: Options, ls: seq<Loss>, rs: seq<UsageRecord>, now: int) {
    forall l, i :: l in ls && 0 <= i < |rs| && rs[i].id.LostId? && l.start == rs[i].id.start ==>
      l.session != rs[i].id.session && l.start + o.lossWindowMs <= now
  }

  function Times(k: int, w: int): int { k * w }

  ghost predicate Aligned(o: Options, t: int) {
    exists k :: t == Times(k, o.lossWindowMs)
  }

  /** Where the windows of the counters can lie when the clock never goes back. */
  ghost predicate InWindows(o: Options, ls: seq<Loss>, through: Option<int>, now: int)
    requires o.lossWindowMs > 0
  {
    && (through.Some? ==> Aligned(o, through.value))
    && forall l :: l in ls ==>
         && Aligned(o, l.start)
         && l.start <= AtLeast(through, o.Window(now))
         && (through.Some? && through.value > o.Window(now) ==> l.start >= through.value)
  }

  /** The eviction loop was entered with more windows than there is room for; with a clock that
      never goes back this takes room for a single counter. */
  ghost predicate Stuck(o: Options, regime: Regime, s: State) {
    s.hung && match regime
              case NeverBack => o.maxLossCounters < 2
              case OneTimePerStep => false
              case OneCounter => true
  }

  ghost predicate Ledger(o: Options, clock: Clock, regime: Regime, s: State)
    requires o.Valid()
  {
    Stuck(o, regime, s) || Kept(o, clock, regime, s)
  }

  ghost predicate Kept(o: Options, clock: Clock, regime: Regime, s: State)
    requires o.Valid()
  {
    && DistinctCounters(s.losses)
    && Closed(o, s.log.generated, s.closedThrough) && DistinctIds(s.log.generated)
    && (!regime.NeverBack? ==> Whole(s.losses, s.log.generated))
    && (regime.OneCounter? ==> o.maxLossCounters == 1 && |s.losses| <= 1)
    && (regime.NeverBack? ==>
          && !s.hung && |s.losses| <= o.maxLossCounters
          && AlmostWhole(o, s.losses, s.log.generated, clock(s.tick))
          && InWindows(o, s.losses, s.closedThrough, clock(s.tick)))
  }

  // ---------------------------------------------------------------------------------------
  // One pass of emitLosses.
  // ---------------------------------------------------------------------------------------

  lemma WindowBounds(o: Options, t: int)
    requires o.Valid()
    ensures o.Window(t) <= t < o.Window(t) + o.lossWindowMs
    ensures Aligned(o, o.Window(t))
  {
    var w := o.lossWindowMs;
    assert t == (t / w) * w + t % w;
    assert o.Window(t) == Times(t / w, w);
  }

  lemma TimesMonotone(i: int, j: int, w: int)
    requires w > 0
    ensures i <= j ==> Times(i, w) <= Times(j, w)
    ensures Times(j + 1, w) == Times(j, w) + w
  {
    if i <= j {
      assert (j - i) * w >= 0;
    }
  }

  /** Window starts are at least one width apart. */
  lemma NextWindow(o: Options, a: int, b: int)
    requires o.Valid() && Aligned(o, a) && Aligned(o, b)
    ensures a > b ==> a >= b + o.lossWindowMs
    ensures Aligned(o, a + o.lossWindowMs)
  {
    var i :| a == Times(i, o.lossWindowMs);
    var j :| b == Times(j, o.lossWindowMs);
    TimesMonotone(i, j, o.lossWindowMs);
    TimesMonotone(j + 1, i, o.lossWindowMs);
    TimesMonotone(j, i, o.lossWindowMs);
    TimesMonotone(i, i, o.lossWindowMs);
  }

  /** An aligned time not after `t` is not after the window of `t`, and windows follow the time. */
  lemma WindowIsLast(o: Options, a: int, t: int)
    requires o.Valid() && Aligned(o, a)
    ensures a <= t ==> a <= o.Window(t)
    ensures a + o.lossWindowMs > t ==> a >= o.Window(t)
  {
    WindowBounds(o, t);
    NextWindow(o, a, o.Window(t));
    NextWindow(o, o.Window(t), a);
  }

  lemma WindowMonotone(o: Options, t: int, u: int)
    requires o.Valid() && t <= u
    ensures o.Window(t) <= o.Window(u)
  {
    WindowBounds(o, t);
    WindowIsLast(o, o.Window(t), u);
  }

  lemma WindowsLater(o: Options, ls: seq<Loss>, through: Option<int>, t: int, u: int)
    requires o.Valid() && InWindows(o, ls, through, t) && t <= u
    ensures InWindows(o, ls, through, u)
  {
    WindowMonotone(o, t, u);
  }

  /** The counters and records after the i-th counter was turned into a record. */
  function Rest(ls: seq<Loss>, i: nat): seq<Loss>
    requires i < |ls|
  {
    ls[..i] + ls[i + 1..]
  }

  lemma EmittedOneLedger(o: Options, clock: Clock, s: State, i: nat)
    requires i < |s.losses|
    ensures var t := EmittedOne(o, clock, s, i);
      && t.losses == Rest(s.losses, i)
      && t.log.generated == s.log.generated + [LossRecord(s.losses[i], clock(s.tick))]
      && t.closedThrough == Some(AtLeast(s.closedThrough, s.losses[i].start + o.lossWindowMs))
      && t.tick == s.tick + 2 && t.hung == s.hung
  {
  }

  lemma RestOf(ls: seq<Loss>, i: nat)
    requires i < |ls| && DistinctCounters(ls)
    ensures DistinctCounters(Rest(ls, i))
    ensures forall l :: l in Rest(ls, i) ==> l in ls && (l.start != ls[i].start || l.session != ls[i].session)
  {
    var r := Rest(ls, i);
    assert forall k :: 0 <= k < |r| ==> r[k] == ls[if k < i then k else k + 1];
  }

  /** No counter has the id of a record that was made. */
  ghost predicate Fresh(ls: seq<Loss>, rs: seq<UsageRecord>) {
    && DistinctCounters(ls) && DistinctIds(rs)
    && (forall k :: 0 <= k < |rs| ==> rs[k].id.LostId?)
    && (forall l, k :: l in ls && 0 <= k < |rs| && l.start == rs[k].id.start ==> l.session != rs[k].id.session)
  }

  /** Readings of a pass: the counters before `i` were kept by one not before `first`, and the
      records from `old'` on were made by one not after `last`. */
  ghost predicate Timed(o: Options, ls: seq<Loss>, rs: seq<UsageRecord>, i: nat, old': nat, first: int, last: int) {
    && old' <= |rs|
    && (forall k :: 0 <= k < i && k < |ls| ==> ls[k].start + o.lossWindowMs > first)
    && (forall k :: old' <= k < |rs| ==> rs[k].id.LostId? && rs[k].id.start + o.lossWindowMs <= last)
  }

  ghost predicate InPass(o: Options, ls: seq<Loss>, rs: seq<UsageRecord>, i: nat, old': nat, first: int, last: int) {
    Fresh(ls, rs) && Timed(o, ls, rs, i, old', first, last)
  }

  lemma FreshConverts(ls: seq<Loss>, rs: seq<UsageRecord>, i: nat, at: int)
    requires i < |ls| && Fresh(ls, rs)
    ensures Fresh(Rest(ls, i), rs + [LossRecord(ls[i], at)])
  {
    RestOf(ls, i);
    var n := rs + [LossRecord(ls[i], at)];
    assert ls[i] in ls;
    assert forall k :: 0 <= k < |rs| ==> n[k] == rs[k];
  }

  lemma PassConverts(o: Options, ls: seq<Loss>, rs: seq<UsageRecord>, i: nat, old': nat, first: int, last: int,
                     at: int, last': int)
    requires i < |ls| && InPass(o, ls, rs, i, old', first, last)
    requires ls[i].start + o.lossWindowMs <= last' && last <= last'
    ensures InPass(o, Rest(ls, i), rs + [LossRecord(ls[i], at)], i, old', first, last')
  {
    FreshConverts(ls, rs, i, at);
  }

  lemma {:induction false} AllFresh(o: Options, clock: Clock, s: State)
    requires Fresh(s.losses, s.log.generated)
    ensures var t := EmittedFrom(o, clock, s, 0, true);
      Fresh(t.losses, t.log.generated) && t.losses == []
    decreases |s.losses|
  {
    hide EmittedOne, Fresh;
    if s.losses != [] {
      EmittedOneLedger(o, clock, s, 0);
      FreshConverts(s.losses, s.log.generated, 0, clock(s.tick));
      AllFresh(o, clock, EmittedOne(o, clock, s, 0));
    }
  }

  lemma ConvertedWindows(o: Options, ls: seq<Loss>, i: nat, through: Option<int>, t: int, u: int)
    requires o.Valid() && i < |ls| && DistinctCounters(ls) && InWindows(o, ls, through, t)
    requires ls[i].start + o.lossWindowMs <= t <= u
    ensures InWindows(o, Rest(ls, i), Some(AtLeast(through, ls[i].start + o.lossWindowMs)), u)
  {
    var end := ls[i].start + o.lossWindowMs;
    assert ls[i] in ls;
    NextWindow(o, ls[i].start, ls[i].start);
    WindowIsLast(o, end, t);
    WindowMonotone(o, t, u);
    RestOf(ls, i);
  }

  /** The latest reading, or a bound of it: with a clock that never goes back, the next one. */
  ghost function Latest(clock: Clock, regime: Regime, first: nat, tick: nat): int {
    if regime.NeverBack? then clock(tick) else clock(first)
  }

  lemma LaterReading(clock: Clock, regime: Regime, first: nat, tick: nat, tick': nat, end: nat)
    requires !regime.OneCounter? && Regular(clock, regime, first, end) && first <= tick <= tick'
    ensures Latest(clock, regime, first, tick) <= Latest(clock, regime, first, tick')
    ensures tick < end ==> clock(first) <= clock(tick) <= Latest(clock, regime, first, tick')
  {
  }

  lemma {:induction false} PassKeeps(o: Options, clock: Clock, regime: Regime, first: nat, old': nat, s: State, i: nat)
    requires o.Valid() && !regime.OneCounter? && first <= s.tick
    requires Regular(clock, regime, first, EmittedFrom(o, clock, s, i, false).tick)
    requires InPass(o, s.losses, s.log.generated, i, old', clock(first), Latest(clock, regime, first, s.tick))
    ensures var t := EmittedFrom(o, clock, s, i, false);
      InPass(o, t.losses, t.log.generated, |t.losses|, old', clock(first), Latest(clock, regime, first, t.tick))
    decreases |s.losses| - i
  {
    hide InPass, EmittedOne, Regular;
    if i < |s.losses| {
      var checked := s.(tick := s.tick + 1);
      var end := EmittedFrom(o, clock, s, i, false).tick;
      if s.losses[i].start + o.lossWindowMs > clock(s.tick) {
        assert end >= checked.tick;
        LaterReading(clock, regime, first, s.tick, checked.tick, end);
        PassedOver(o, s.losses, s.log.generated, i, old', clock(first),
                   Latest(clock, regime, first, s.tick), Latest(clock, regime, first, checked.tick));
        PassKeeps(o, clock, regime, first, old', checked, i + 1);
      } else {
        EmittedOneLedger(o, clock, checked, i);
        var t := EmittedOne(o, clock, checked, i);
        assert end >= t.tick;
        LaterReading(clock, regime, first, s.tick, t.tick, end);
        PassConverts(o, s.losses, s.log.generated, i, old', clock(first), Latest(clock, regime, first, s.tick),
                     clock(checked.tick), Latest(clock, regime, first, t.tick));
        PassKeeps(o, clock, regime, first, old', t, i);
      }
    } else {
      PassDone(o, s.losses, s.log.generated, i, old', clock(first), Latest(clock, regime, first, s.tick));
    }
  }

  lemma PassedOver(o: Options, ls: seq<Loss>, rs: seq<UsageRecord>, i: nat, old': nat, first: int, last: int,
                   last': int)
    requires InPass(o, ls, rs, i, old', first, last) && i < |ls| && ls[i].start + o.lossWindowMs > first &&
      last <= last'
    ensures InPass(o, ls, rs, i + 1, old', first, last')
  {
  }

  lemma PassDone(o: Options, ls: seq<Loss>, rs: seq<UsageRecord>, i: nat, old': nat, first: int, last: int)
    requires InPass(o, ls, rs, i, old', first, last) && i >= |ls|
    ensures InPass(o, ls, rs, |ls|, old', first, last)
  {
  }

  /** Closed windows, sizes and the positions of the counters over one pass. */
  lemma {:induction false} PassCloses(o: Options, clock: Clock, regime: Regime, s: State, i: nat, all: bool)
    requires o.Valid() && DistinctCounters(s.losses) && Closed(o, s.log.generated, s.closedThrough)
    requires regime.NeverBack? ==> Monotone(clock)
    requires regime.NeverBack? && !all ==> InWindows(o, s.losses, s.closedThrough, clock(s.tick))
    requires regime.NeverBack? ==> s.closedThrough.Some? ==> Aligned(o, s.closedThrough.value)
    requires regime.NeverBack? ==> forall l :: l in s.losses ==> Aligned(o, l.start)
    ensures var t := EmittedFrom(o, clock, s, i, all);
      && Closed(o, t.log.generated, t.closedThrough) && DistinctCounters(t.losses) && t.hung == s.hung
      && s.log.generated <= t.log.generated
      && |t.losses| + |t.log.generated| == |s.losses| + |s.log.generated|
      && (forall l :: l in t.losses ==> l in s.losses)
      && (regime.NeverBack? && !all ==> InWindows(o, t.losses, t.closedThrough, clock(t.tick)))
      && (regime.NeverBack? ==> t.closedThrough.Some? ==> Aligned(o, t.closedThrough.value))
    decreases |s.losses| - i
  {
    hide EmittedOne, InWindows, Aligned, Closed, DistinctCounters, LossRecord, Options.Window;
    if i < |s.losses| {
      var checked := if all then s else s.(tick := s.tick + 1);
      if !all && s.losses[i].start + o.lossWindowMs > clock(s.tick) {
        if regime.NeverBack? { WindowsLater(o, s.losses, s.closedThrough, clock(s.tick), clock(checked.tick)); }
        PassCloses(o, clock, regime, checked, i + 1, all);
      } else {
        EmittedOneLedger(o, clock, checked, i);
        RestOf(s.losses, i);
        var t := EmittedOne(o, clock, checked, i);
        assert s.losses[i] in s.losses;
        if regime.NeverBack? {
          NextWindow(o, s.losses[i].start, s.losses[i].start);
          if !all { ConvertedWindows(o, s.losses, i, s.closedThrough, clock(s.tick), clock(t.tick)); }
        }
        ClosedMore(o, s.log.generated, s.closedThrough, s.losses[i], clock(checked.tick));
        PassCloses(o, clock, regime, t, i, all);
      }
    }
  }

  lemma ClosedMore(o: Options, rs: seq<UsageRecord>, through: Option<int>, l: Loss, at: int)
    requires Closed(o, rs, through)
    ensures Closed(o, rs + [LossRecord(l, at)], Some(AtLeast(through, l.start + o.lossWindowMs)))
  {
  }

  lemma LedgerIsFresh(o: Options, clock: Clock, regime: Regime, s: State)
    requires o.Valid() && Kept(o, clock, regime, s)
    ensures Fresh(s.losses, s.log.generated)
  {
  }

  /** A pass over at most one counter keeps it or converts it, so nothing of its window is left. */
  lemma PassOfOne(o: Options, clock: Clock, s: State)
    requires o.Valid() && Kept(o, clock, OneCounter, s)
    ensures var t := Emitted(o, clock, s, false);
      && Kept(o, clock, OneCounter, t)
      && |t.losses| + |t.log.generated| == |s.losses| + |s.log.generated| && |t.log.generated| >= |s.log.generated|
      && (forall l :: l in t.losses ==> l in s.losses && l.start + o.lossWindowMs > clock(s.tick))
  {
    hide EmittedOne, LossRecord;
    PassCloses(o, clock, OneCounter, s, 0, false);
    if s.losses != [] {
      var checked := s.(tick := s.tick + 1);
      if s.losses[0].start + o.lossWindowMs > clock(s.tick) {
        assert EmittedFrom(o, clock, checked, 1, false) == checked;
      } else {
        EmittedOneLedger(o, clock, checked, 0);
        FreshConverts(s.losses, s.log.generated, 0, clock(checked.tick));
        assert EmittedFrom(o, clock, EmittedOne(o, clock, checked, 0), 0, false) == EmittedOne(o, clock, checked, 0);
      }
    }
  }

  /** After a pass no counter of an earlier closed window is left, and one of a window closed in
      this pass only if the clock moved on within it. */
  lemma PassLedger(o: Options, clock: Clock, regime: Regime, s: State)
    requires o.Valid() && Kept(o, clock, regime, s)
    requires Regular(clock, regime, s.tick, Emitted(o, clock, s, false).tick)
    ensures var t := Emitted(o, clock, s, false);
      && Kept(o, clock, regime, t)
      && |t.losses| + |t.log.generated| == |s.losses| + |s.log.generated| && |t.log.generated| >= |s.log.generated|
      && (|t.log.generated| == |s.log.generated| ==> Whole(t.losses, t.log.generated))
      && (forall l :: l in t.losses ==> l in s.losses && l.start + o.lossWindowMs > clock(s.tick))
  {
    LedgerIsFresh(o, clock, regime, s);
    if regime.OneCounter? {
      PassOfOne(o, clock, s);
      return;
    }
    var old', first := |s.log.generated|, clock(s.tick);
    var t := EmittedFrom(o, clock, s, 0, false);
    PassKeeps(o, clock, regime, s.tick, old', s, 0);
    PassCloses(o, clock, regime, s, 0, false);
    var last := Latest(clock, regime, s.tick, t.tick);
    assert Timed(o, t.losses, t.log.generated, |t.losses|, old', first, last);
    forall l | l in t.losses
      ensures l.start + o.lossWindowMs > first
    {
      var k :| 0 <= k < |t.losses| && t.losses[k] == l;
    }
    PassSplits(o, clock, regime, s, t);
  }

  lemma PassSplits(o: Options, clock: Clock, regime: Regime, s: State, t: State)
    requires o.Valid() && Kept(o, clock, regime, s) && s.tick <= t.tick
    requires s.log.generated <= t.log.generated && Fresh(t.losses, t.log.generated)
    requires Timed(o, t.losses, t.log.generated, |t.losses|, |s.log.generated|, clock(s.tick),
                   Latest(clock, regime, s.tick, t.tick))
    requires forall l :: l in t.losses ==> l in s.losses && l.start + o.lossWindowMs > clock(s.tick)
    ensures regime.OneTimePerStep? || |t.log.generated| == |s.log.generated| ==> Whole(t.losses, t.log.generated)
    ensures regime.NeverBack? ==> AlmostWhole(o, t.losses, t.log.generated, clock(t.tick))
  {
    var n := |s.log.generated|;
    forall l, i | l in t.losses && 0 <= i < n
      ensures l.start != s.log.generated[i].id.start
    {
      assert l in s.losses;
    }
    assert forall i :: 0 <= i < n ==> t.log.generated[i] == s.log.generated[i];
  }

  lemma AllLedger(o: Options, clock: Clock, regime: Regime, s: State)
    requires o.Valid() && Kept(o, clock, regime, s)
    requires regime.NeverBack? ==> Monotone(clock)
    ensures Kept(o, clock, regime, Emitted(o, clock, s, true))
  {
    LedgerIsFresh(o, clock, regime, s);
    var window := o.Window(clock(s.tick));
    WindowBounds(o, clock(s.tick));
    NextWindow(o, window, window);
    var begun := s.(closedThrough := Some(AtLeast(s.closedThrough, window + o.lossWindowMs)), tick := s.tick + 1);
    AllFresh(o, clock, begun);
    PassCloses(o, clock, regime, begun, 0, true);
  }

  /** With a clock that never goes back, the counters a pass leaves are all of one window. */
  lemma SurvivorsShareWindow(o: Options, clock: Clock, s: State, l: Loss)
    requires o.Valid() && InWindows(o, s.losses, s.closedThrough, clock(s.tick))
    requires l in s.losses && l.start + o.lossWindowMs > clock(s.tick)
    ensures l.start == AtLeast(s.closedThrough, o.Window(clock(s.tick)))
  {
    WindowIsLast(o, l.start, clock(s.tick));
  }

  lemma CountedStarts(ls: seq<Loss>, start: int, session: string, at: int, kind: string)
    ensures var c := Counted(ls, start, session, at, kind);
      && |c| <= |ls| + 1
      && (forall l :: l in c ==> (l.start == start && l.session == session) ||
                                 exists x :: x in ls && x.start == l.start && x.session == l.session)
  {
    var c := Counted(ls, start, session, at, kind);
    forall l | l in c
      ensures (l.start == start && l.session == session) ||
              exists x :: x in ls && x.start == l.start && x.session == l.session
    {
      var k :| 0 <= k < |c| && c[k] == l;
      if k < |ls| && k != FindLoss(ls, start, session) { assert ls[k] in ls; }
    }
  }

  lemma {:induction false} SubsetSize<T>(xs: set<T>, ys: set<T>)
    requires xs <= ys
    ensures |xs| <= |ys|
  {
    if xs != {} {
      var x :| x in xs;
      SubsetSize(xs - {x}, ys - {x});
    }
  }

  lemma AtMostTwo<T>(xs: set<T>, a: T, b: T)
    requires forall x :: x in xs ==> x == a || x == b
    ensures |xs| <= 2
  {
    assert xs <= {a, b};
    SubsetSize(xs, {a, b});
  }

  /** Charging a record after a pass. */
  lemma ChargedLedger(o: Options, clock: Clock, regime: Regime, s: State, e: Entry)
    requires o.Valid() && Kept(o, clock, regime, s)
    requires regime.NeverBack? ==>
      && Monotone(clock)
      && (|s.losses| < o.maxLossCounters || Whole(s.losses, s.log.generated))
      && (forall l, m :: l in s.losses && m in s.losses ==> l.start == m.start)
    ensures Ledger(o, clock, regime, Charged(o, clock, s, e))
  {
    hide Counted, Evicted, Starts, Carries, CountedBy, InWindows, AlmostWhole;
    var start := AtLeast(s.closedThrough, o.Window(clock(s.tick)));
    var c := Counted(s.losses, start, SessionOf(e.record), e.record.at, KindOf(e));
    var g := GivenUp(e.record, KindOf(e));
    CountedCovers(s.losses, start, g);
    CountedStarts(s.losses, start, SessionOf(e.record), e.record.at, KindOf(e));
    var r := Evicted(c, o.maxLossCounters);
    EvictionCarries(c, o.maxLossCounters);
    assert forall i :: 0 <= i < |s.log.generated| ==> s.log.generated[i].id.start < start;
    if Whole(s.losses, s.log.generated) {
      WholeStays(s.losses, c, r, s.log.generated, start);
    }
    if regime.NeverBack? {
      AfterCharge(o, clock, s, c, start);
    }
    if regime.OneCounter? && |Starts(c)| <= 1 {
      EvictedIsTurns(c, 1);
    }
  }

  lemma WholeStays(ls: seq<Loss>, c: seq<Loss>, r: seq<Loss>, rs: seq<UsageRecord>, start: int)
    requires Whole(ls, rs) && Starts(r) == Starts(c)
    requires forall l :: l in c ==> l.start == start || exists x :: x in ls && x.start == l.start
    requires forall i :: 0 <= i < |rs| && rs[i].id.LostId? ==> rs[i].id.start < start
    ensures Whole(r, rs)
  {
    forall l | l in r
      ensures l.start == start || exists x :: x in ls && x.start == l.start
    {
      assert l.start in Starts(r);
      var m :| m in c && m.start == l.start;
    }
  }

  /** With a clock that never goes back at most two windows have counters, so eviction ends when there is
      room for two. */
  lemma AfterCharge(o: Options, clock: Clock, s: State, c: seq<Loss>, start: int)
    requires o.Valid() && Monotone(clock) && Kept(o, clock, NeverBack, s)
    requires |s.losses| < o.maxLossCounters || Whole(s.losses, s.log.generated)
    requires forall l, m :: l in s.losses && m in s.losses ==> l.start == m.start
    requires start == AtLeast(s.closedThrough, o.Window(clock(s.tick)))
    requires DistinctCounters(c) && |c| <= |s.losses| + 1
    requires forall l :: l in c ==>
      l.start == start || exists x :: x in s.losses && x.start == l.start && x.session == l.session
    ensures var r := Evicted(c, o.maxLossCounters);
      && |Starts(c)| <= 2
      && (|Starts(c)| <= o.maxLossCounters ==>
            && |r| <= o.maxLossCounters && DistinctCounters(r)
            && AlmostWhole(o, r, s.log.generated, clock(s.tick + 1))
            && InWindows(o, r, s.closedThrough, clock(s.tick + 1)))
  {
    var r := Evicted(c, o.maxLossCounters);
    var other := if s.losses == [] then start else s.losses[0].start;
    AtMostTwo(Starts(c), start, other);
    if |Starts(c)| > o.maxLossCounters {
      return;
    }
    EvictedIsTurns(c, o.maxLossCounters);
    EvictionCarries(c, o.maxLossCounters);
    forall l | l in r
      ensures l.start == start || exists x :: x in s.losses && x.start == l.start
    {
      assert l.start in Starts(r);
      var m :| m in c && m.start == l.start;
    }
    WindowBounds(o, clock(s.tick));
    WindowsLater(o, s.losses, s.closedThrough, clock(s.tick), clock(s.tick + 1));
    WindowMonotone(o, clock(s.tick), clock(s.tick + 1));
    if Whole(s.losses, s.log.generated) {
      WholeStays(s.losses, c, r, s.log.generated, start);
    } else {
      assert r == c;
    }
  }

  lemma ForfeitedLedger(o: Options, clock: Clock, regime: Regime, s: State, e: Entry, reason: string)
    requires o.Valid() && Ledger(o, clock, regime, s)
    ensures Ledger(o, clock, regime, Forfeited(s, e, reason))
  {
  }

  lemma AccountedLedger(o: Options, clock: Clock, regime: Regime, s: State, e: Entry, reason: string)
    requires o.Valid() && Ledger(o, clock, regime, s)
    requires Regular(clock, regime, s.tick, Accounted(o, clock, s, e, reason).tick)
    ensures Ledger(o, clock, regime, Accounted(o, clock, s, e, reason))
  {
    var f := Forfeited(s, e, reason);
    ForfeitedLedger(o, clock, regime, s, e, reason);
    if e.record.kind != LOST_KIND && !Stuck(o, regime, s) {
      hide Emitted, Charged;
      var m := Emitted(o, clock, f, false);
      assert Accounted(o, clock, s, e, reason).tick >= m.tick;
      RegularPart(clock, regime, f.tick, Accounted(o, clock, s, e, reason).tick, f.tick, m.tick);
      PassLedger(o, clock, regime, f);
      if regime.NeverBack? {
        forall l | l in m.losses
          ensures l.start == AtLeast(f.closedThrough, o.Window(clock(f.tick)))
        {
          SurvivorsShareWindow(o, clock, f, l);
        }
      }
      ChargedLedger(o, clock, regime, m, e);
    }
  }

  // ---------------------------------------------------------------------------------------
  // Every step keeps the ledger.
  // ---------------------------------------------------------------------------------------

  lemma {:induction false} AccountedAllLedger(o: Options, clock: Clock, regime: Regime, s: State, es: seq<Entry>,
                                              reason: string)
    requires o.Valid() && Ledger(o, clock, regime, s)
    requires Regular(clock, regime, s.tick, AccountedAll(o, clock, s, es, reason).tick)
    ensures Ledger(o, clock, regime, AccountedAll(o, clock, s, es, reason))
    decreases |es|
  {
    hide Accounted, Ledger, Regular;
    if es != [] {
      var n, t := Accounted(o, clock, s, es[0], reason), AccountedAll(o, clock, s, es, reason);
      assert t == AccountedAll(o, clock, n, es[1..], reason);
      RegularPart(clock, regime, s.tick, t.tick, s.tick, n.tick);
      RegularPart(clock, regime, s.tick, t.tick, n.tick, t.tick);
      AccountedLedger(o, clock, regime, s, es[0], reason);
      AccountedAllLedger(o, clock, regime, n, es[1..], reason);
    }
  }

  /** Changes of the queue and readings of the clock do not touch the ledger. */
  lemma SameLedger(o: Options, clock: Clock, regime: Regime, s: State, t: State)
    requires o.Valid() && Ledger(o, clock, regime, s)
    requires t.losses == s.losses && t.log.generated == s.log.generated && t.closedThrough == s.closedThrough
    requires t.hung == s.hung && s.tick <= t.tick
    requires regime.NeverBack? ==> Monotone(clock)
    ensures Ledger(o, clock, regime, t)
  {
    if regime.NeverBack? && !Stuck(o, regime, s) {
      WindowsLater(o, s.losses, s.closedThrough, clock(s.tick), clock(t.tick));
    }
  }

  lemma EmittedLedger(o: Options, clock: Clock, regime: Regime, s: State, all: bool)
    requires o.Valid() && Ledger(o, clock, regime, s)
    requires Regular(clock, regime, s.tick, Emitted(o, clock, s, all).tick)
    ensures Ledger(o, clock, regime, Emitted(o, clock, s, all))
  {
    if Stuck(o, regime, s) {
      assert Stuck(o, regime, Emitted(o, clock, s, all));
    } else if all {
      AllLedger(o, clock, regime, s);
    } else {
      PassLedger(o, clock, regime, s);
    }
  }

  lemma RecordedLedger(o: Options, clock: Clock, regime: Regime, s: State, input: Input)
    requires o.Valid() && Ledger(o, clock, regime, s)
    requires Regular(clock, regime, s.tick, Recorded(o, clock, s, input).tick)
    ensures Ledger(o, clock, regime, Recorded(o, clock, s, input))
  {
    hide Emitted, Taken, Ledger;
    if s.accepting {
      var t := Recorded(o, clock, s, input);
      var called := s.(log := s.log.(calls := s.log.calls + 1));
      SameLedger(o, clock, regime, s, called);
      var n := Emitted(o, clock, called, false);
      RegularPart(clock, regime, s.tick, t.tick, s.tick, n.tick);
      EmittedLedger(o, clock, regime, called, false);
      if input.Invalid? {
        SameLedger(o, clock, regime, n, t);
      } else {
        RegularPart(clock, regime, s.tick, t.tick, n.tick, t.tick);
        TakenLedger(o, clock, regime, n, input);
      }
    }
  }

  lemma TakenLedger(o: Options, clock: Clock, regime: Regime, n: State, input: Input)
    requires o.Valid() && input.Snapshot? && Ledger(o, clock, regime, n)
    requires Regular(clock, regime, n.tick, Taken(o, clock, n, input).tick)
    ensures Ledger(o, clock, regime, Taken(o, clock, n, input))
  {
    hide Accounted, Ledger;
    var t := Taken(o, clock, n, input);
    var dated := if input.at.Some? then n else n.(tick := n.tick + 1);
    var record := UsageRecord(Given(input.id), if input.at.Some? then input.at.value else clock(n.tick),
                              input.session, input.kind, input.evidence);
    var made := dated.(tick := dated.tick + 1, log := Made(dated.log, record));
    SameLedger(o, clock, regime, n, made);
    var e := Entry(n.log.entries, record, clock(dated.tick), false, 0);
    if |made.queue| >= o.queueLimit {
      assert t == Accounted(o, clock, made, e, "overflow");
      RegularPart(clock, regime, n.tick, t.tick, made.tick, t.tick);
      AccountedLedger(o, clock, regime, made, e, "overflow");
    } else {
      SameLedger(o, clock, regime, made, t);
    }
  }

  lemma {:induction false} ExpiredLedger(o: Options, clock: Clock, regime: Regime, s: State, k: nat, n: nat)
    requires o.Valid() && Ledger(o, clock, regime, s)
    requires Regular(clock, regime, s.tick, Expired(o, clock, s, k, n).tick)
    ensures Ledger(o, clock, regime, Expired(o, clock, s, k, n))
    decreases n
  {
    hide Accounted, Ledger;
    if n > 0 && k < |s.queue| {
      var e, t := s.queue[k], Expired(o, clock, s, k, n);
      var read := if e.attempts == 0 then s else s.(tick := s.tick + 1);
      if e.attempts > 0 && clock(s.tick) - e.since >= o.retryWindowMs {
        var out := read.(queue := s.queue[..k] + s.queue[k + 1..]);
        var m := Accounted(o, clock, out, e, "retryWindow");
        SameLedger(o, clock, regime, s, out);
        RegularPart(clock, regime, s.tick, t.tick, out.tick, m.tick);
        AccountedLedger(o, clock, regime, out, e, "retryWindow");
        RegularPart(clock, regime, s.tick, t.tick, m.tick, t.tick);
        ExpiredLedger(o, clock, regime, m, k, n - 1);
      } else {
        SameLedger(o, clock, regime, s, read);
        RegularPart(clock, regime, s.tick, t.tick, read.tick, t.tick);
        ExpiredLedger(o, clock, regime, read, k + 1, n - 1);
      }
    }
  }

  lemma {:induction false} MarkedLedger(o: Options, clock: Clock, regime: Regime, s: State, k: nat, n: nat,
                                        ambiguous: bool)
    requires o.Valid() && Ledger(o, clock, regime, s)
    requires Regular(clock, regime, s.tick, Marked(o, clock, s, k, n, ambiguous).tick)
    ensures Ledger(o, clock, regime, Marked(o, clock, s, k, n, ambiguous))
    decreases n
  {
    hide Accounted, Ledger;
    if n > 0 && k < |s.queue| {
      var t := Marked(o, clock, s, k, n, ambiguous);
      var e := s.queue[k].(ambiguous := s.queue[k].ambiguous || ambiguous, attempts := s.queue[k].attempts + 1);
      var read := s.(tick := s.tick + 1);
      if clock(s.tick) - e.since >= o.retryWindowMs {
        var out := read.(queue := s.queue[..k] + s.queue[k + 1..]);
        var m := Accounted(o, clock, out, e, "retryWindow");
        SameLedger(o, clock, regime, s, out);
        RegularPart(clock, regime, s.tick, t.tick, out.tick, m.tick);
        AccountedLedger(o, clock, regime, out, e, "retryWindow");
        RegularPart(clock, regime, s.tick, t.tick, m.tick, t.tick);
        MarkedLedger(o, clock, regime, m, k, n - 1, ambiguous);
      } else {
        var back := read.(queue := s.queue[k := e]);
        SameLedger(o, clock, regime, s, back);
        RegularPart(clock, regime, s.tick, t.tick, back.tick, t.tick);
        MarkedLedger(o, clock, regime, back, k + 1, n - 1, ambiguous);
      }
    }
  }

  lemma SendFailedLedger(o: Options, clock: Clock, regime: Regime, s: State, ambiguous: bool)
    requires o.Valid() && Ledger(o, clock, regime, s)
    requires Regular(clock, regime, s.tick, SendFailed(o, clock, s, ambiguous).tick)
    ensures Ledger(o, clock, regime, SendFailed(o, clock, s, ambiguous))
  {
    hide Ledger, Marked, Emitted;
    var t, idle := SendFailed(o, clock, s, ambiguous), Refused(s, ambiguous);
    SameLedger(o, clock, regime, s, idle);
    if !s.finished {
      var n := Marked(o, clock, idle, 0, s.inFlight, ambiguous);
      RegularPart(clock, regime, s.tick, t.tick, s.tick, n.tick);
      MarkedLedger(o, clock, regime, idle, 0, s.inFlight, ambiguous);
      if !n.hung {
        RegularPart(clock, regime, s.tick, t.tick, n.tick, t.tick);
        EmittedLedger(o, clock, regime, n, !n.accepting);
      }
    } else {
      SameLedger(o, clock, regime, s, t);
    }
  }

  lemma CloseFinishedLedger(o: Options, clock: Clock, regime: Regime, s: State)
    requires o.Valid() && Ledger(o, clock, regime, s)
    requires Regular(clock, regime, s.tick, CloseFinished(o, clock, s).tick)
    ensures Ledger(o, clock, regime, CloseFinished(o, clock, s))
  {
    hide Ledger, AccountedAll, Emitted;
    var t := CloseFinished(o, clock, s);
    var entries := MarkedAmbiguous(s.queue, s.inFlight);
    var closed := s.(finished := true, queue := [], log := s.log.(doubtful := s.log.doubtful + Serials(Batch(s))));
    SameLedger(o, clock, regime, s, closed);
    var m := AccountedAll(o, clock, closed, entries, "closeTimeout");
    var first := Emitted(o, clock, m, true);
    RegularPart(clock, regime, s.tick, t.tick, s.tick, m.tick);
    AccountedAllLedger(o, clock, regime, closed, entries, "closeTimeout");
    RegularPart(clock, regime, s.tick, t.tick, m.tick, first.tick);
    EmittedLedger(o, clock, regime, m, true);
    SameLedger(o, clock, regime, first, first.(queue := []));
    RegularPart(clock, regime, s.tick, t.tick, first.tick, t.tick);
    AccountedAllLedger(o, clock, regime, first.(queue := []), first.queue, "closeTimeout");
  }

  lemma NextLedger(o: Options, clock: Clock, regime: Regime, s: State, a: Action)
    requires o.Valid() && Ledger(o, clock, regime, s) && Enabled(s, a)
    requires Regular(clock, regime, s.tick, Next(o, clock, s, a).tick)
    ensures Ledger(o, clock, regime, Next(o, clock, s, a))
  {
    hide Ledger, Emitted, Recorded, Expired, SendFailed, CloseFinished;
    var t := Next(o, clock, s, a);
    match a {
      case Record(input) => RecordedLedger(o, clock, regime, s, input);
      case Flush(draining) => EmittedLedger(o, clock, regime, s, draining);
      case SendBegin(due) =>
        var n := Expired(o, clock, s, 0, |s.queue|);
        ExpiredLedger(o, clock, regime, s, 0, |s.queue|);
        SameLedger(o, clock, regime, n, t);
      case Store(serial) => SameLedger(o, clock, regime, s, t);
      case StoreLate(serial) => SameLedger(o, clock, regime, s, t);
      case SendOk => SameLedger(o, clock, regime, s, t);
      case SendFail(ambiguous) => SendFailedLedger(o, clock, regime, s, ambiguous);
      case CloseBegin =>
        SameLedger(o, clock, regime, s, s.(accepting := false));
        EmittedLedger(o, clock, regime, s.(accepting := false), true);
      case CloseFinish => CloseFinishedLedger(o, clock, regime, s);
    }
  }

  /** Every step of a run reads the clock by the regime, which may ask for room for one counter. */
  ghost predicate RegularRun(o: Options, clock: Clock, regime: Regime, s: State, steps: seq<Action>)
    requires o.Valid() && Legal(o, clock, s, steps)
    decreases |steps|
  {
    (regime.OneCounter? ==> o.maxLossCounters == 1) && (steps == [] ||
    (&& Regular(clock, regime, s.tick, Next(o, clock, s, steps[0]).tick)
     && RegularRun(o, clock, regime, Next(o, clock, s, steps[0]), steps[1..])))
  }

  lemma {:induction false} RunsLedger(o: Options, clock: Clock, regime: Regime, s: State, steps: seq<Action>)
    requires o.Valid() && Ledger(o, clock, regime, s) && Legal(o, clock, s, steps) &&
      RegularRun(o, clock, regime, s, steps)
    ensures Ledger(o, clock, regime, After(o, clock, s, steps))
    decreases |steps|
  {
    hide Ledger, Next;
    if steps != [] {
      NextLedger(o, clock, regime, s, steps[0]);
      RunsLedger(o, clock, regime, Next(o, clock, s, steps[0]), steps[1..]);
    }
  }

  lemma {:induction false} MonotoneRun(o: Options, clock: Clock, s: State, steps: seq<Action>)
    requires o.Valid() && Legal(o, clock, s, steps) && Monotone(clock)
    ensures RegularRun(o, clock, NeverBack, s, steps)
    decreases |steps|
  {
    hide Next;
    if steps != [] {
      MonotoneRun(o, clock, Next(o, clock, s, steps[0]), steps[1..]);
    }
  }

  /** With a clock that never goes back and room for two counters, the recorder never hangs, and
      never holds more counters than it may. */
  lemma NeverHangs(o: Options, clock: Clock, steps: seq<Action>)
    requires o.Valid() && o.maxLossCounters >= 2 && Monotone(clock) && Legal(o, clock, INITIAL, steps)
    ensures var s := After(o, clock, INITIAL, steps);
      !s.hung && |s.losses| <= o.maxLossCounters
  {
    MonotoneRun(o, clock, INITIAL, steps);
    RunsLedger(o, clock, NeverBack, INITIAL, steps);
  }

  /** A loss record's id is never used twice: with a clock that never goes back or room for one
      counter, as long as the recorder does not hang, or with any clock that each step reads at one
      single time. */
  lemma LossIdsUnique(o: Options, clock: Clock, regime: Regime, steps: seq<Action>)
    requires o.Valid() && Legal(o, clock, INITIAL, steps) && RegularRun(o, clock, regime, INITIAL, steps)
    ensures var s := After(o, clock, INITIAL, steps);
      regime.OneTimePerStep? || !s.hung ==> DistinctIds(s.log.generated)
  {
    RunsLedger(o, clock, regime, INITIAL, steps);
  }

  lemma {:induction false} OneCounterRun(o: Options, clock: Clock, s: State, steps: seq<Action>)
    requires o.Valid() && o.maxLossCounters == 1 && Legal(o, clock, s, steps)
    ensures RegularRun(o, clock, OneCounter, s, steps)
    decreases |steps|
  {
    hide Next;
    if steps != [] {
      OneCounterRun(o, clock, Next(o, clock, s, steps[0]), steps[1..]);
    }
  }
}
