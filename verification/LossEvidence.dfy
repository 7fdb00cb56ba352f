/**
 What the loss counters guarantee: eviction and its termination, exact totals, coverage of every
 record given up on, and what a reader of the sink sees of it.
 */
module LossEvidence {

  import opened Wrappers
  import opened UsageSpec

  // ---------------------------------------------------------------------------------------
  // Termination of the eviction loop.
  // ---------------------------------------------------------------------------------------

  /** The counters after `n` turns of the loop body. */
  function Turns(ls: seq<Loss>, n: nat): seq<Loss>
    decreases n
  {
    if n == 0 || ls == [] then ls else Turns(EvictOne(ls), n - 1)
  }

  lemma {:induction false} StartsAtMost(ls: seq<Loss>)
    ensures |Starts(ls)| <= |ls|
  {
    if ls != [] {
      StartsCons(ls);
      StartsAtMost(ls[1..]);
      assert |{ls[0].start} + Starts(ls[1..])| <= 1 + |Starts(ls[1..])|;
    }
  }

  lemma {:induction false} TurnsKeepWindows(ls: seq<Loss>, n: nat)
    ensures Starts(Turns(ls, n)) == Starts(ls)
    decreases n
  {
    hide EvictOne, Starts;
    if n > 0 && ls != [] {
      EvictOneStarts(ls);
      TurnsKeepWindows(EvictOne(ls), n - 1);
    }
  }

  /** The number of turns the loop takes when it ends. */
  ghost function TurnsTaken(ls: seq<Loss>, max: nat): nat
    decreases Scoped(ls), Lead(ls)
  {
    if |ls| <= max || |Starts(ls)| > max || Scoped(ls) == 0 then 0
    else
      EvictOneProgress(ls);
      1 + TurnsTaken(EvictOne(ls), max)
  }

  lemma {:induction false} EvictedIsTurns(ls: seq<Loss>, max: nat)
    requires DistinctCounters(ls) && |Starts(ls)| <= max
    ensures Evicted(ls, max) == Turns(ls, TurnsTaken(ls, max))
    ensures |Evicted(ls, max)| <= max && DistinctCounters(Evicted(ls, max))
    ensures forall n :: 0 <= n < TurnsTaken(ls, max) ==> |Turns(ls, n)| > max
    decreases Scoped(ls), Lead(ls)
  {
    hide EvictOne, Starts, DistinctCounters;
    if |ls| > max {
      if Scoped(ls) == 0 { GlobalsAreWindows(ls); }
      EvictOneProgress(ls);
      EvictedIsTurns(EvictOne(ls), max);
      forall n | 0 <= n < TurnsTaken(ls, max)
        ensures |Turns(ls, n)| > max
      {
        if n > 0 { assert Turns(ls, n) == Turns(EvictOne(ls), n - 1); }
      }
    }
  }

  /** The eviction loop ends exactly when the counters span at most `max` windows; it then leaves
      at most `max` counters. */
  lemma EvictionEnds(ls: seq<Loss>, max: nat)
    requires DistinctCounters(ls)
    ensures (exists n: nat :: |Turns(ls, n)| <= max) <==> |Starts(ls)| <= max
    ensures |Starts(ls)| <= max ==> |Evicted(ls, max)| <= max
  {
    if |Starts(ls)| <= max {
      EvictedIsTurns(ls, max);
      assert |Turns(ls, TurnsTaken(ls, max))| <= max;
    }
    forall n: nat
      ensures |Turns(ls, n)| >= |Starts(ls)|
    {
      TurnsKeepWindows(ls, n);
      StartsAtMost(Turns(ls, n));
    }
  }

  // ---------------------------------------------------------------------------------------
  // Totals.
  // ---------------------------------------------------------------------------------------

  function Total(ls: seq<Loss>, kind: string): nat {
    if ls == [] then 0 else CountOf(ls[0].counts, kind) + Total(ls[1..], kind)
  }

  function EvidenceCount(r: UsageRecord, kind: string): nat {
    if r.evidence.Some? then CountOf(r.evidence.value.counts, kind) else 0
  }

  function TotalEvidence(rs: seq<UsageRecord>, kind: string): nat {
    if rs == [] then 0 else TotalEvidence(rs[..|rs| - 1], kind) + EvidenceCount(rs[|rs| - 1], kind)
  }

  function TotalGivenUp(gs: seq<GivenUp>, kind: string): nat {
    if gs == [] then 0 else TotalGivenUp(gs[..|gs| - 1], kind) + if gs[|gs| - 1].kind == kind then 1 else 0
  }

  lemma {:induction false} TotalConcat(a: seq<Loss>, b: seq<Loss>, kind: string)
    ensures Total(a + b, kind) == Total(a, kind) + Total(b, kind)
  {
    if a == [] {
      assert a + b == b;
    } else {
      assert (a + b)[0] == a[0] && (a + b)[1..] == a[1..] + b;
      TotalConcat(a[1..], b, kind);
    }
  }

  lemma TotalAt(ls: seq<Loss>, k: nat, l: Loss, kind: string)
    requires k < |ls|
    ensures Total(ls[k := l], kind) == Total(ls, kind) - CountOf(ls[k].counts, kind) + CountOf(l.counts, kind)
    ensures Total(ls[..k] + ls[k + 1..], kind) == Total(ls, kind) - CountOf(ls[k].counts, kind)
  {
    assert ls == ls[..k] + ([ls[k]] + ls[k + 1..]);
    assert ls[k := l] == ls[..k] + ([l] + ls[k + 1..]);
    TotalConcat(ls[..k], [ls[k]] + ls[k + 1..], kind);
    TotalConcat(ls[..k], [l] + ls[k + 1..], kind);
    TotalConcat(ls[..k], ls[k + 1..], kind);
    assert ([l] + ls[k + 1..])[1..] == ls[k + 1..] == ([ls[k]] + ls[k + 1..])[1..];
  }

  lemma TotalAppend(ls: seq<Loss>, l: Loss, kind: string)
    ensures Total(ls + [l], kind) == Total(ls, kind) + CountOf(l.counts, kind)
  {
    TotalConcat(ls, [l], kind);
    assert [l][1..] == [];
  }

  // ---------------------------------------------------------------------------------------
  // Coverage.
  // ---------------------------------------------------------------------------------------

  predicate Spans(from: int, to: int, session: string, r: UsageRecord) {
    from <= r.at <= to && (session == "" || session == SessionOf(r))
  }

  predicate Counts(l: Loss, g: GivenUp) {
    Spans(l.from, l.to, l.session, g.record) && CountOf(l.counts, g.kind) > 0
  }

  /** A loss record whose range, session and counts account for a given-up record. */
  predicate Shows(r: UsageRecord, g: GivenUp) {
    && r.kind == LOST_KIND && r.evidence.Some? && r.session.Some?
    && Spans(r.evidence.value.affectedFrom, r.evidence.value.affectedTo, r.session.value, g.record)
    && CountOf(r.evidence.value.counts, g.kind) > 0
  }

  ghost predicate CountedBy(ls: seq<Loss>, g: GivenUp) {
    exists k :: 0 <= k < |ls| && Counts(ls[k], g)
  }

  ghost predicate ShownBy(rs: seq<UsageRecord>, g: GivenUp) {
    exists k :: 0 <= k < |rs| && Shows(rs[k], g)
  }

  ghost predicate Covered(ls: seq<Loss>, rs: seq<UsageRecord>, g: GivenUp) {
    CountedBy(ls, g) || ShownBy(rs, g)
  }

  /** The books: distinct counters, every loss covered, and every total exact. */
  ghost predicate Books(ls: seq<Loss>, rs: seq<UsageRecord>, gs: seq<GivenUp>) {
    && DistinctCounters(ls)
    && (forall i :: 0 <= i < |gs| ==> gs[i].record.kind != LOST_KIND && Covered(ls, rs, gs[i]))
    && (forall kind: string :: Total(ls, kind) + TotalEvidence(rs, kind) == TotalGivenUp(gs, kind))
  }

  /** Whatever one list of counters covers, the other does too, with the same totals. */
  ghost predicate Carries(ls: seq<Loss>, r: seq<Loss>) {
    && (forall g :: CountedBy(ls, g) ==> CountedBy(r, g))
    && (forall kind: string :: Total(r, kind) == Total(ls, kind))
  }

  lemma EvictOneCarries(ls: seq<Loss>)
    requires ls != []
    ensures Carries(ls, EvictOne(ls))
  {
    var oldest, rest := ls[0], ls[1..];
    var k := FindLoss(rest, oldest.start, "");
    var r := EvictOne(ls);
    forall g | CountedBy(ls, g)
      ensures CountedBy(r, g)
    {
      var j :| 0 <= j < |ls| && Counts(ls[j], g);
      if j == 0 {
        assert Counts(r[if k < |rest| then k else |rest|], g);
      } else {
        assert ls[j] == rest[j - 1];
        assert Counts(r[j - 1], g);
      }
    }
    forall kind: string
      ensures Total(r, kind) == Total(ls, kind)
    {
      if k < |rest| {
        TotalAt(rest, k, Absorb(rest[k], oldest), kind);
      } else {
        TotalAppend(rest, oldest.(session := ""), kind);
      }
    }
  }

  /** Eviction keeps every total per kind and the coverage of every record. */
  lemma {:induction false} EvictionCarries(ls: seq<Loss>, max: nat)
    ensures Carries(ls, Evicted(ls, max))
    ensures DistinctCounters(ls) ==> DistinctCounters(Evicted(ls, max))
    ensures Starts(Evicted(ls, max)) == Starts(ls)
    decreases Scoped(ls), Lead(ls)
  {
    if !(|ls| <= max || |Starts(ls)| > max || Scoped(ls) == 0) {
      EvictOneProgress(ls);
      EvictOneCarries(ls);
      EvictionCarries(EvictOne(ls), max);
    }
  }

  /** Counting one more record covers it, and keeps covering the others. */
  lemma CountedCovers(ls: seq<Loss>, start: int, g: GivenUp)
    requires DistinctCounters(ls)
    ensures var r := Counted(ls, start, SessionOf(g.record), g.record.at, g.kind);
      && DistinctCounters(r) && CountedBy(r, g)
      && (forall h :: CountedBy(ls, h) ==> CountedBy(r, h))
      && (forall kind: string :: Total(r, kind) == Total(ls, kind) + if kind == g.kind then 1 else 0)
  {
    var session, at := SessionOf(g.record), g.record.at;
    var k := FindLoss(ls, start, session);
    var r := Counted(ls, start, session, at, g.kind);
    assert Counts(r[k], g);
    forall h | CountedBy(ls, h)
      ensures CountedBy(r, h)
    {
      var j :| 0 <= j < |ls| && Counts(ls[j], h);
      assert Counts(r[j], h);
    }
    forall kind: string
      ensures Total(r, kind) == Total(ls, kind) + if kind == g.kind then 1 else 0
    {
      if k == |ls| {
        TotalAppend(ls, r[k], kind);
      } else {
        TotalAt(ls, k, r[k], kind);
      }
    }
  }

  /** Turning a counter into a loss record moves its coverage and totals over unchanged. */
  lemma EmissionKeepsBooks(ls: seq<Loss>, rs: seq<UsageRecord>, gs: seq<GivenUp>, i: nat, at: int)
    requires Books(ls, rs, gs) && i < |ls|
    ensures Books(ls[..i] + ls[i + 1..], rs + [LossRecord(ls[i], at)], gs)
  {
    var r, n := ls[..i] + ls[i + 1..], rs + [LossRecord(ls[i], at)];
    forall x, y | 0 <= x < y < |r|
      ensures r[x].start != r[y].start || r[x].session != r[y].session
    {
      assert r[x] == ls[if x < i then x else x + 1] && r[y] == ls[if y < i then y else y + 1];
    }
    forall j | 0 <= j < |gs|
      ensures Covered(r, n, gs[j])
    {
      var g := gs[j];
      assert Covered(ls, rs, g);
      if CountedBy(ls, g) {
        var k :| 0 <= k < |ls| && Counts(ls[k], g);
        if k == i {
          assert Shows(n[|rs|], g);
        } else {
          assert Counts(r[if k < i then k else k - 1], g);
        }
      } else {
        var k :| 0 <= k < |rs| && Shows(rs[k], g);
        assert Shows(n[k], g);
      }
    }
    forall kind: string
      ensures Total(r, kind) + TotalEvidence(n, kind) == TotalGivenUp(gs, kind)
    {
      TotalAt(ls, i, ls[i], kind);
      assert n[..|rs|] == rs;
    }
  }

  /** Charging a record keeps the books. */
  lemma ChargeKeepsBooks(ls: seq<Loss>, rs: seq<UsageRecord>, gs: seq<GivenUp>, start: int, g: GivenUp, max: nat)
    requires Books(ls, rs, gs) && g.record.kind != LOST_KIND
    ensures Books(Evicted(Counted(ls, start, SessionOf(g.record), g.record.at, g.kind), max), rs, gs + [g])
  {
    var c := Counted(ls, start, SessionOf(g.record), g.record.at, g.kind);
    CountedCovers(ls, start, g);
    EvictionCarries(c, max);
    forall j | 0 <= j < |gs + [g]|
      ensures Covered(Evicted(c, max), rs, (gs + [g])[j])
    {
      assert j < |gs| ==> Covered(ls, rs, gs[j]);
    }
    assert (gs + [g])[..|gs|] == gs;
  }

  // ---------------------------------------------------------------------------------------
  // Readers.
  // ---------------------------------------------------------------------------------------

  datatype Query = Query(from: int, to: int, kinds: Option<set<string>>, sessionId: Option<string>)

  /** `matchesUsage`. */
  predicate Matches(r: UsageRecord, q: Query) {
    if r.kind == LOST_KIND && r.evidence.Some? then
      && r.evidence.value.affectedFrom < q.to
      && r.evidence.value.affectedTo >= q.from
      && (q.sessionId.None? || r.session.None? || r.session.value == "" || r.session == q.sessionId)
    else
      && q.from <= r.at < q.to
      && (q.kinds.None? || r.kind in q.kinds.value)
      && (q.sessionId.None? || r.session == q.sessionId)
  }

  predicate IsEvidence(r: UsageRecord) { r.kind == LOST_KIND && r.evidence.Some? }

  /** Evidence speaks of each moment from its first loss to its last, any other record of its own time. */
  predicate SpeaksOf(r: UsageRecord, t: int) {
    if IsEvidence(r) then r.evidence.value.affectedFrom <= t <= r.evidence.value.affectedTo else t == r.at
  }

  /** A record matches exactly when it speaks of a moment asked for, is of the session asked for and of
      a kind asked for; but evidence that names no session may be of any, and its kind does not matter. */
  lemma MatchesMeans(r: UsageRecord, q: Query)
    requires q.from < q.to && (IsEvidence(r) ==> r.evidence.value.affectedFrom <= r.evidence.value.affectedTo)
    ensures Matches(r, q) <==>
      && (exists t :: q.from <= t < q.to && SpeaksOf(r, t))
      && (q.sessionId.Some? ==> r.session == q.sessionId || (IsEvidence(r) && r.session in {None, Some("")}))
      && (q.kinds.Some? ==> IsEvidence(r) || r.kind in q.kinds.value)
  {
    var t := if !IsEvidence(r) then r.at
      else if r.evidence.value.affectedFrom < q.from then q.from else r.evidence.value.affectedFrom;
    assert Matches(r, q) ==> SpeaksOf(r, t);
  }

  /** Whoever asks for a range, session and kinds that include a lost record is shown the
      evidence of the loss, whatever kinds the query lists. */
  lemma EvidenceMatches(e: UsageRecord, g: GivenUp, q: Query)
    requires Shows(e, g) && g.record.kind != LOST_KIND && Matches(g.record, q)
    ensures Matches(e, q)
  {
  }

  /** `selectUsage`: the first matching record of each id, in order. */
  method Select(records: seq<UsageRecord>, q: Query) returns (out: seq<UsageRecord>)
    ensures out == Selected(records, q)
  {
    out := [];
    var seen: set<RecordId> := {};
    assert records[..0] == [];
    for i := 0 to |records|
      invariant out == Selected(records[..i], q)
      invariant seen == set r | r in Selected(records[..i], q) :: r.id
    {
      assert records[..i + 1][..i] == records[..i];
      if records[i].id !in seen && Matches(records[i], q) {
        seen := seen + {records[i].id};
        out := out + [records[i]];
      }
    }
    assert records[..|records|] == records;
  }

  ghost function Selected(records: seq<UsageRecord>, q: Query): seq<UsageRecord> {
    if records == [] then []
    else
      var before, last := Selected(records[..|records| - 1], q), records[|records| - 1];
      if Matches(last, q) && forall r :: r in before ==> r.id != last.id then before + [last] else before
  }

  /** The selection holds matching records only, each id at most once. */
  lemma {:induction false} SelectedMatch(records: seq<UsageRecord>, q: Query)
    ensures forall r :: r in Selected(records, q) ==> r in records && Matches(r, q)
    ensures DistinctIds(Selected(records, q))
  {
    if records != [] {
      var prefix, last := records[..|records| - 1], records[|records| - 1];
      SelectedMatch(prefix, q);
      assert records == prefix + [last];
    }
  }

  /** Every matching record is in the selection, or another matching record of its id is. */
  lemma {:induction false} SelectedAll(records: seq<UsageRecord>, q: Query, r: UsageRecord)
    requires r in records && Matches(r, q)
    ensures HasId(Selected(records, q), r.id)
  {
    var prefix, last := records[..|records| - 1], records[|records| - 1];
    assert records == prefix + [last];
    var before, all := Selected(prefix, q), Selected(records, q);
    if r in prefix {
      SelectedAll(prefix, q, r);
      var k :| 0 <= k < |before| && before[k].id == r.id;
      assert all[k].id == r.id;
    } else if all == before {
      var x :| x in before && x.id == last.id;
      var k :| 0 <= k < |before| && before[k] == x;
      assert all[k].id == r.id;
    } else {
      assert all[|before|] == last;
    }
  }
}
