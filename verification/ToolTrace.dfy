/**
 The tool-trace collector: of an unbounded history of tool calls it keeps the first 25 and the last
 25, counts the rest, and knows whether every call was settled.

 The text of an entry is opaque, and sanitising it is a parameter: an entry that is observed here is one
 whose text was sanitised.
 */
module ToolTrace {

  import opened Wrappers

  const TOOL_TRACE_MAX_ENTRIES: nat := 50

  datatype Outcome = Unsettled | Succeeded | Errored

  datatype Entry = Entry(sequence: int, outcome: Outcome, text: string)

  datatype Trace = Trace(entries: seq<Entry>, omittedCount: int, complete: bool)

  datatype State = State(entries: map<int, Entry>, omittedCount: nat, pending: nat, dispatchedThrough: int)

  const EMPTY := State(map[], 0, 0, 0)

  // ---------------------------------------------------------------------------------------
  // Sorted keys.
  // ---------------------------------------------------------------------------------------

  ghost predicate Ascending(s: seq<int>) {
    forall i, j :: 0 <= i < j < |s| ==> s[i] < s[j]
  }

  /** `s` lists the keys in ascending order. */
  ghost predicate Sorts(s: seq<int>, keys: set<int>) {
    Ascending(s) && forall k :: k in keys <==> k in s
  }

  lemma {:induction false} SortsUnique(a: seq<int>, b: seq<int>, keys: set<int>)
    requires Sorts(a, keys) && Sorts(b, keys)
    ensures a == b
  {
    if a == [] || b == [] {
      SortsEmpty(a, keys);
      SortsEmpty(b, keys);
    } else {
      SameLeast(a, b, keys);
      SortsRest(a, keys);
      SortsRest(b, keys);
      SortsUnique(a[1..], b[1..], keys - {a[0]});
    }
  }

  lemma SortsEmpty(s: seq<int>, keys: set<int>)
    requires Sorts(s, keys)
    ensures s == [] <==> keys == {}
  {
    if s == [] && keys != {} {
      var k := SomeElement(keys);
    }
    if s != [] {
      Listed(s, keys, s[0]);
    }
  }

  lemma Listed(s: seq<int>, keys: set<int>, k: int)
    requires Sorts(s, keys)
    ensures k in keys <==> k in s
  {
  }

  lemma SameLeast(a: seq<int>, b: seq<int>, keys: set<int>)
    requires Sorts(a, keys) && Sorts(b, keys) && a != [] && b != []
    ensures a[0] == b[0]
  {
    Listed(a, keys, a[0]);
    Listed(b, keys, a[0]);
    Listed(a, keys, b[0]);
    Listed(b, keys, b[0]);
    var i :| 0 <= i < |b| && b[i] == a[0];
    var j :| 0 <= j < |a| && a[j] == b[0];
  }

  lemma SortsRest(s: seq<int>, keys: set<int>)
    requires Sorts(s, keys) && s != []
    ensures Sorts(s[1..], keys - {s[0]})
  {
    forall k
      ensures k in keys - {s[0]} <==> k in s[1..]
    {
      Listed(s, keys, k);
      TailMember(s, k);
    }
  }

  lemma TailMember(s: seq<int>, k: int)
    requires s != [] && Ascending(s)
    ensures k in s[1..] <==> k in s && k != s[0]
  {
    if k in s[1..] {
      var i :| 0 <= i < |s[1..]| && s[1..][i] == k;
      assert s[i + 1] == k;
    }
    if k in s && k != s[0] {
      var i :| 0 <= i < |s| && s[i] == k;
      assert s[1..][i - 1] == k;
    }
  }

  lemma {:induction false} SortsSize(s: seq<int>, keys: set<int>)
    requires Sorts(s, keys)
    ensures |s| == |keys|
  {
    SortsEmpty(s, keys);
    if s != [] {
      Listed(s, keys, s[0]);
      SortsRest(s, keys);
      SortsSize(s[1..], keys - {s[0]});
    }
  }

  lemma SortsAppend(s: seq<int>, keys: set<int>, k: int)
    requires Sorts(s, keys) && forall x :: x in keys ==> x < k
    ensures Sorts(s + [k], keys + {k})
  {
    forall i | 0 <= i < |s|
      ensures s[i] < k
    {
      Listed(s, keys, s[i]);
    }
    forall x
      ensures x in keys + {k} <==> x in s + [k]
    {
      Listed(s, keys, x);
    }
  }

  /** `[...keys].sort((a, b) => a - b)`. */
  method SortKeys(keys: set<int>) returns (s: seq<int>)
    ensures Sorts(s, keys) && |s| == |keys|
  {
    s := [];
    var rest := keys;
    while rest != {}
      invariant Sorts(s, keys - rest) && rest <= keys
      invariant forall a, b :: a in keys - rest && b in rest ==> a < b
      decreases |rest|
    {
      var least := Least(rest);
      SortsAppend(s, keys - rest, least);
      assert keys - (rest - {least}) == (keys - rest) + {least};
      s := s + [least];
      rest := rest - {least};
    }
    assert keys - rest == keys;
    SortsSize(s, keys);
  }

  method Least(keys: set<int>) returns (least: int)
    requires keys != {}
    ensures least in keys && forall k :: k in keys ==> least <= k
  {
    least := Choose(keys);
    var rest := keys - {least};
    while rest != {}
      invariant rest <= keys && least in keys
      invariant forall k :: k in keys && k !in rest ==> least <= k
      decreases |rest|
    {
      var k := Choose(rest);
      if k < least {
        least := k;
      }
      rest := rest - {k};
    }
  }

  // ---------------------------------------------------------------------------------------
  // One observation.
  // ---------------------------------------------------------------------------------------

  /** The bookkeeping of calls dispatched and not settled. */
  function Tallied(s: State, e: Entry): State {
    if e.outcome.Unsettled? && e.sequence > s.dispatchedThrough then
      s.(pending := s.pending + 1, dispatchedThrough := e.sequence)
    else if !e.outcome.Unsettled? && e.sequence <= s.dispatchedThrough &&
            (e.sequence !in s.entries || s.entries[e.sequence].outcome.Unsettled?) then
      s.(pending := if s.pending > 0 then s.pending - 1 else 0)
    else s
  }

  /** The position of the first key after which the middle is left out: the 26th is dropped. */
  const HEAD: nat := 25

  /** An entry of a full collector that falls between head and tail is not kept. */
  predicate FallsBetween(sorted: seq<int>, e: Entry) {
    |sorted| == TOOL_TRACE_MAX_ENTRIES && e.sequence !in sorted &&
    e.sequence > sorted[24] && e.sequence < sorted[25]
  }

  /** The entry goes in; of 51 keys the 26th goes out again. */
  predicate InsertedAs(c: State, e: Entry, t: State, after: seq<int>) {
    var more := c.entries[e.sequence := e];
    if |after| > TOOL_TRACE_MAX_ENTRIES
    then t == c.(entries := more - {after[HEAD]}, omittedCount := c.omittedCount + 1)
    else t == c.(entries := more)
  }

  ghost predicate Inserted(c: State, e: Entry, t: State) {
    exists after: seq<int> :: Sorts(after, c.entries[e.sequence := e].Keys) && InsertedAs(c, e, t, after)
  }

  ghost predicate ObservedWith(s: State, e: Entry, t: State, sorted: seq<int>) {
    if FallsBetween(sorted, e) then t == Tallied(s, e) else Inserted(Tallied(s, e), e, t)
  }

  /** What `observe` makes of a state. */
  ghost predicate Observed(s: State, e: Entry, t: State) {
    if e.sequence < 1 then t == s
    else exists sorted: seq<int> :: Sorts(sorted, s.entries.Keys) && ObservedWith(s, e, t, sorted)
  }

  lemma ObservedBy(s: State, e: Entry, t: State, sorted: seq<int>)
    requires Observed(s, e, t) && e.sequence >= 1 && Sorts(sorted, s.entries.Keys)
    ensures ObservedWith(s, e, t, sorted)
  {
    hide Sorts, ObservedWith;
    var other: seq<int> :| Sorts(other, s.entries.Keys) && ObservedWith(s, e, t, other);
    SortsUnique(other, sorted, s.entries.Keys);
  }

  lemma InsertedBy(c: State, e: Entry, t: State, after: seq<int>)
    requires Inserted(c, e, t) && Sorts(after, c.entries[e.sequence := e].Keys)
    ensures InsertedAs(c, e, t, after)
  {
    hide Sorts, InsertedAs;
    var other: seq<int> :| Sorts(other, c.entries[e.sequence := e].Keys) && InsertedAs(c, e, t, other);
    SortsUnique(other, after, c.entries[e.sequence := e].Keys);
  }

  /** Nothing is pending and nothing kept is unsettled. */
  ghost predicate AllSettled(s: State) {
    s.pending == 0 && forall k :: k in s.entries ==> !s.entries[k].outcome.Unsettled?
  }

  class ToolTraceCollector {
    var entries: map<int, Entry>
    var omittedCount: nat
    var closed: bool
    var finalComplete: Option<bool>
    var pending: nat
    var dispatchedThrough: int

    constructor ()
      ensures View() == EMPTY && !closed && finalComplete.None?
    {
      entries, omittedCount, closed, finalComplete := map[], 0, false, None;
      pending, dispatchedThrough := 0, 0;
    }

    ghost function View(): State
      reads this
    {
      State(entries, omittedCount, pending, dispatchedThrough)
    }

    method Observe(e: Entry)
      modifies this
      ensures closed == old(closed) && finalComplete == old(finalComplete)
      ensures if old(closed) then View() == old(View()) else Observed(old(View()), e, View())
    {
      hide Sorts, Tallied, Inserted;
      if closed || e.sequence < 1 {
        return;
      }
      Tally(e);
      var retained := SortKeys(entries.Keys);
      Listed(retained, entries.Keys, e.sequence);
      if |retained| == TOOL_TRACE_MAX_ENTRIES && e.sequence !in entries &&
         e.sequence > retained[24] && e.sequence < retained[25] {
        assert ObservedWith(old(View()), e, View(), retained);
        return;
      }
      Insert(e);
      assert ObservedWith(old(View()), e, View(), retained);
    }

    method Tally(e: Entry)
      modifies `pending, `dispatchedThrough
      ensures View() == Tallied(old(View()), e) && View().entries == old(View()).entries
    {
      var unsettledBefore := e.sequence !in entries || entries[e.sequence].outcome.Unsettled?;
      if e.outcome.Unsettled? && e.sequence > dispatchedThrough {
        pending := pending + 1;
        dispatchedThrough := e.sequence;
      } else if !e.outcome.Unsettled? && e.sequence <= dispatchedThrough && unsettledBefore {
        pending := if pending > 0 then pending - 1 else 0;
      }
    }

    method Insert(e: Entry)
      modifies `entries, `omittedCount
      ensures Inserted(old(View()), e, View())
    {
      hide Sorts;
      entries := entries[e.sequence := e];
      var keys := SortKeys(entries.Keys);
      if |entries| > TOOL_TRACE_MAX_ENTRIES {
        entries := entries - {keys[HEAD]};
        omittedCount := omittedCount + 1;
      }
      assert InsertedAs(old(View()), e, View(), keys);
    }

    method Snapshot(complete: bool) returns (trace: Trace)
      ensures Shows(View(), trace)
      ensures trace.complete <==> (complete && (finalComplete.Some? ==> finalComplete.value) && AllSettled(View()))
    {
      hide Sorts;
      var keys := SortKeys(entries.Keys);
      var list := [];
      var settled := true;
      forall i | 0 <= i < |keys|
        ensures keys[i] in entries
      {
        Listed(keys, entries.Keys, keys[i]);
      }
      for i := 0 to |keys|
        invariant |list| == i && forall j :: 0 <= j < i ==> list[j] == entries[keys[j]]
        invariant settled <==> forall j :: 0 <= j < i ==> !list[j].outcome.Unsettled?
      {
        list := list + [entries[keys[i]]];
        settled := settled && !entries[keys[i]].outcome.Unsettled?;
      }
      assert Lists(View().entries, keys, list);
      SettledList(View(), keys, list);
      trace := Trace(list, omittedCount,
                     complete && (finalComplete.Some? ==> finalComplete.value) && pending == 0 && settled);
    }

    method Finalize(complete: bool) returns (trace: Trace)
      modifies this
      ensures View() == old(View()) && closed && Shows(View(), trace)
      ensures finalComplete == if old(finalComplete).Some? then old(finalComplete) else Some(complete)
      ensures trace.complete <==> (complete && finalComplete.value && AllSettled(View()))
    {
      if finalComplete.None? {
        finalComplete := Some(complete);
      }
      closed := true;
      trace := Snapshot(complete);
    }
  }

  ghost predicate Lists(entries: map<int, Entry>, keys: seq<int>, list: seq<Entry>) {
    |list| == |keys| && forall i :: 0 <= i < |keys| ==> keys[i] in entries && list[i] == entries[keys[i]]
  }

  lemma SettledList(s: State, keys: seq<int>, list: seq<Entry>)
    requires Sorts(keys, s.entries.Keys) && Lists(s.entries, keys, list)
    ensures AllSettled(s) <==> s.pending == 0 && forall j :: 0 <= j < |list| ==> !list[j].outcome.Unsettled?
  {
    hide Sorts;
    if AllSettled(s) {
      forall j | 0 <= j < |list|
        ensures !list[j].outcome.Unsettled?
      {
        var k := keys[j];
        assert k in s.entries && list[j] == s.entries[k];
        assert !s.entries[k].outcome.Unsettled?;
      }
    }
    if forall j :: 0 <= j < |list| ==> !list[j].outcome.Unsettled? {
      forall k | k in s.entries
        ensures !s.entries[k].outcome.Unsettled?
      {
        Listed(keys, s.entries.Keys, k);
        var i :| 0 <= i < |keys| && keys[i] == k;
        assert !list[i].outcome.Unsettled?;
      }
    }
  }

  /** A trace lists the kept entries by ascending sequence. */
  ghost predicate Shows(s: State, trace: Trace) {
    && trace.omittedCount == s.omittedCount
    && exists keys: seq<int> :: Sorts(keys, s.entries.Keys) && Lists(s.entries, keys, trace.entries)
  }

  // ---------------------------------------------------------------------------------------
  // Whole histories: calls are dispatched 1, 2, 3, … and each is settled at most once, later.
  // ---------------------------------------------------------------------------------------

  function Dispatched(h: seq<Entry>): nat {
    if h == [] then 0 else Dispatched(h[..|h| - 1]) + if h[|h| - 1].outcome.Unsettled? then 1 else 0
  }

  predicate IsSettled(h: seq<Entry>, k: int) {
    exists i :: 0 <= i < |h| && h[i].sequence == k && !h[i].outcome.Unsettled?
  }

  /** What `recordToolInvocation` produces for one observer, whatever calls overlap. */
  predicate History(h: seq<Entry>) {
    h == [] ||
    (var before, last := h[..|h| - 1], h[|h| - 1];
     && History(before)
     && if last.outcome.Unsettled? then last.sequence == Dispatched(before) + 1
        else 1 <= last.sequence <= Dispatched(before) && !IsSettled(before, last.sequence))
  }

  /** How many of the calls 1 to `n` are not settled. */
  function Open(h: seq<Entry>, n: nat): nat {
    if n == 0 then 0 else Open(h, n - 1) + if IsSettled(h, n) then 0 else 1
  }

  /** The last thing observed of a call. */
  function Latest(h: seq<Entry>, k: int): Option<Entry> {
    if h == [] then None
    else if h[|h| - 1].sequence == k then Some(h[|h| - 1])
    else Latest(h[..|h| - 1], k)
  }

  /** The calls that are kept of `n`: the first 25 and the last 25. */
  predicate Keeps(n: nat, k: int) {
    1 <= k <= n && (k <= 25 || k > n - 25)
  }

  ghost predicate Describes(h: seq<Entry>, s: State) {
    var n := Dispatched(h);
    && (forall k :: k in s.entries <==> Keeps(n, k))
    && (forall k :: k in s.entries ==> Latest(h, k) == Some(s.entries[k]))
    && s.omittedCount == (if n > 50 then n - 50 else 0)
    && s.pending == Open(h, n)
    && s.dispatchedThrough == n
  }

  lemma SettledMore(h: seq<Entry>, e: Entry, k: int)
    ensures IsSettled(h + [e], k) <==> IsSettled(h, k) || (e.sequence == k && !e.outcome.Unsettled?)
  {
    var g := h + [e];
    if IsSettled(h, k) {
      var i :| 0 <= i < |h| && h[i].sequence == k && !h[i].outcome.Unsettled?;
      assert g[i] == h[i];
    }
    if e.sequence == k && !e.outcome.Unsettled? {
      assert g[|h|] == e;
    }
  }

  /** In a history nothing is settled that was not dispatched, and a call is settled exactly when
      the last thing observed of it says so. */
  lemma {:induction false} HistoryFacts(h: seq<Entry>, k: int)
    requires History(h)
    ensures IsSettled(h, k) ==> 1 <= k <= Dispatched(h)
    ensures 1 <= k <= Dispatched(h) <==> Latest(h, k).Some?
    ensures Latest(h, k).Some? ==> (IsSettled(h, k) <==> !Latest(h, k).value.outcome.Unsettled?)
    ensures Latest(h, k).Some? ==> Latest(h, k).value.sequence == k
  {
    if h != [] {
      var before, last := h[..|h| - 1], h[|h| - 1];
      assert h == before + [last];
      HistoryFacts(before, k);
      SettledMore(before, last, k);
    }
  }

  lemma {:induction false} OpenMore(h: seq<Entry>, e: Entry, n: nat)
    requires !IsSettled(h, e.sequence) || e.outcome.Unsettled?
    ensures Open(h + [e], n) == Open(h, n) - if !e.outcome.Unsettled? && 1 <= e.sequence <= n then 1 else 0
  {
    if n > 0 {
      OpenMore(h, e, n - 1);
      SettledMore(h, e, n);
    }
  }

  /** No call is open exactly when every call is settled. */
  lemma {:induction false} NoneOpen(h: seq<Entry>, n: nat)
    ensures Open(h, n) == 0 <==> forall k :: 1 <= k <= n ==> IsSettled(h, k)
  {
    if n > 0 {
      NoneOpen(h, n - 1);
      if forall k :: 1 <= k <= n ==> IsSettled(h, k) {
        assert IsSettled(h, n);
      }
    }
  }

  /** The kept sequences in order. */
  function KeptInOrder(n: nat): (s: seq<int>)
    ensures |s| == if n > 50 then 50 else n
    ensures forall i :: 0 <= i < |s| ==> s[i] == if i < 25 || n <= 50 then i + 1 else n - 49 + i
  {
    if n <= 50 then seq(n, i => i + 1) else seq(50, i => if i < 25 then i + 1 else n - 49 + i)
  }

  lemma KeptListed(n: nat, k: int)
    ensures k in KeptInOrder(n) <==> Keeps(n, k)
  {
    var s := KeptInOrder(n);
    if Keeps(n, k) {
      var i := if k <= 25 || n <= 50 then k - 1 else k - n + 49;
      assert s[i] == k;
    }
  }

  lemma KeptSorted(n: nat, keys: set<int>)
    requires forall k :: k in keys <==> Keeps(n, k)
    ensures Sorts(KeptInOrder(n), keys)
  {
    forall k
      ensures k in keys <==> k in KeptInOrder(n)
    {
      KeptListed(n, k);
    }
  }

  /** A new call comes behind all the kept ones, and of 51 kept calls the 26th is call `n - 24`. */
  lemma DispatchInserts(n: nat, s: State, e: Entry, t: State)
    requires forall k :: k in s.entries <==> Keeps(n, k)
    requires e.outcome.Unsettled? && e.sequence == n + 1 && Observed(s, e, t)
    ensures InsertedAs(Tallied(s, e), e, t, KeptInOrder(n) + [n + 1])
  {
    hide Observed, Inserted, InsertedAs, Sorts;
    var sorted, keys := KeptInOrder(n), s.entries.Keys;
    KeptSorted(n, keys);
    ObservedBy(s, e, t, sorted);
    SortsAppend(sorted, keys, n + 1);
    assert Tallied(s, e).entries[n + 1 := e].Keys == keys + {n + 1};
    InsertedBy(Tallied(s, e), e, t, sorted + [n + 1]);
  }

  lemma DispatchKeeps(n: nat, s: State, e: Entry, t: State)
    requires forall k :: k in s.entries <==> Keeps(n, k)
    requires e.outcome.Unsettled? && e.sequence == n + 1 && Observed(s, e, t)
    requires s.dispatchedThrough == n && s.omittedCount == if n > 50 then n - 50 else 0
    ensures forall k :: k in t.entries <==> Keeps(n + 1, k)
    ensures forall k :: k in t.entries ==> t.entries[k] == if k == n + 1 then e else s.entries[k]
    ensures t.omittedCount == if n + 1 > 50 then n + 1 - 50 else 0
    ensures t.pending == s.pending + 1 && t.dispatchedThrough == n + 1
  {
    hide Observed, Inserted, Sorts;
    DispatchInserts(n, s, e, t);
    var after := KeptInOrder(n) + [n + 1];
    assert |after| > 50 ==> after[25] == n - 24;
  }

  lemma LatestMore(h: seq<Entry>, e: Entry, k: int)
    ensures Latest(h + [e], k) == if e.sequence == k then Some(e) else Latest(h, k)
  {
    var g := h + [e];
    assert g[..|g| - 1] == h;
  }

  lemma DispatchStep(h: seq<Entry>, s: State, e: Entry, t: State)
    requires History(h) && Describes(h, s) && e.outcome.Unsettled? && e.sequence == Dispatched(h) + 1
    requires Observed(s, e, t)
    ensures Describes(h + [e], t)
  {
    hide Observed, Sorts, IsSettled, Latest, History, Keeps;
    var n, g := Dispatched(h), h + [e];
    assert g[..|g| - 1] == h;
    DispatchKeeps(n, s, e, t);
    HistoryFacts(h, n + 1);
    OpenMore(h, e, n + 1);
    KeepsOlder(n);
    forall k | k in t.entries
      ensures Latest(g, k) == Some(t.entries[k])
    {
      LatestMore(h, e, k);
    }
  }

  lemma KeepsOlder(n: nat)
    ensures forall k :: Keeps(n + 1, k) && k != n + 1 ==> Keeps(n, k)
  {
  }

  lemma SettleKeeps(n: nat, s: State, e: Entry, t: State)
    requires forall k :: k in s.entries <==> Keeps(n, k)
    requires 1 <= e.sequence <= n && Observed(s, e, t)
    ensures t == Tallied(s, e).(entries := if Keeps(n, e.sequence) then s.entries[e.sequence := e] else s.entries)
  {
    hide Observed, Inserted, Sorts;
    var sorted, keys := KeptInOrder(n), s.entries.Keys;
    KeptSorted(n, keys);
    ObservedBy(s, e, t, sorted);
    KeptListed(n, e.sequence);
    if Keeps(n, e.sequence) {
      assert s.entries[e.sequence := e].Keys == keys;
      InsertedBy(Tallied(s, e), e, t, sorted);
    }
  }

  lemma SettleStep(h: seq<Entry>, s: State, e: Entry, t: State)
    requires History(h) && Describes(h, s) && !e.outcome.Unsettled?
    requires 1 <= e.sequence <= Dispatched(h) && !IsSettled(h, e.sequence)
    requires Observed(s, e, t)
    ensures Describes(h + [e], t)
  {
    hide Observed, Sorts, IsSettled, Latest, History, Keeps, Open;
    var n, g := Dispatched(h), h + [e];
    assert g[..|g| - 1] == h;
    SettleKeeps(n, s, e, t);
    OpenMore(h, e, n);
    HistoryFacts(h, e.sequence);
    OpenPositive(h, n, e.sequence);
    forall k | k in t.entries
      ensures Latest(g, k) == Some(t.entries[k])
    {
      LatestMore(h, e, k);
    }
  }

  lemma {:induction false} OpenPositive(h: seq<Entry>, n: nat, k: int)
    requires 1 <= k <= n && !IsSettled(h, k)
    ensures Open(h, n) > 0
  {
    if k < n { OpenPositive(h, n - 1, k); }
  }

  /** For every history, of any length and interleaving, the collector holds exactly the first 25
      and the last 25 calls, each as last observed, and counts exactly the others. */
  lemma {:induction false} CollectorDescribes(h: seq<Entry>, states: seq<State>)
    requires History(h) && |states| == |h| + 1 && states[0] == EMPTY
    requires forall i :: 0 <= i < |h| ==> Observed(states[i], h[i], states[i + 1])
    ensures Describes(h, states[|h|])
  {
    if h != [] {
      var before, last := h[..|h| - 1], h[|h| - 1];
      assert h == before + [last];
      CollectorDescribes(before, states[..|h|]);
      if last.outcome.Unsettled? {
        DispatchStep(before, states[|h| - 1], last, states[|h|]);
      } else {
        SettleStep(before, states[|h| - 1], last, states[|h|]);
      }
    }
  }

  /** A trace called complete leaves nothing open: every dispatched call was settled, the omitted
      ones too. And when all were settled, nothing but the caller's own flag stands in the way. */
  lemma CompleteMeansAllSettled(h: seq<Entry>, s: State)
    requires History(h) && Describes(h, s)
    ensures AllSettled(s) <==> forall k :: 1 <= k <= Dispatched(h) ==> IsSettled(h, k)
  {
    var n := Dispatched(h);
    NoneOpen(h, n);
    forall k | k in s.entries && s.pending == 0
      ensures !s.entries[k].outcome.Unsettled?
    {
      HistoryFacts(h, k);
    }
  }

  /** The entries of a trace the collector can show: ascending, at most 50. */
  ghost predicate Presentable(list: seq<Entry>) {
    && |list| <= TOOL_TRACE_MAX_ENTRIES
    && (forall i :: 0 <= i < |list| ==> list[i].sequence >= 1)
    && (forall i, j :: 0 <= i < j < |list| ==> list[i].sequence < list[j].sequence)
  }

  /** The trace shown for a history: of `n` calls the first 25 and the last 25, or all of them when
      there are at most 50, in order of dispatch, each as last observed; the others are counted. */
  lemma WindowIsExact(h: seq<Entry>, s: State, trace: Trace)
    requires History(h) && Describes(h, s) && Shows(s, trace)
    ensures |trace.entries| == |KeptInOrder(Dispatched(h))|
    ensures forall i :: 0 <= i < |trace.entries| ==> Latest(h, KeptInOrder(Dispatched(h))[i]) == Some(trace.entries[i])
    ensures |trace.entries| + trace.omittedCount == Dispatched(h)
    ensures Presentable(trace.entries)
  {
    hide Sorts, History, Latest, Keeps;
    var n := Dispatched(h);
    var keys: seq<int> :| Sorts(keys, s.entries.Keys) && Lists(s.entries, keys, trace.entries);
    KeptSorted(n, s.entries.Keys);
    SortsUnique(keys, KeptInOrder(n), s.entries.Keys);
    forall i | 0 <= i < |trace.entries|
      ensures trace.entries[i].sequence == keys[i]
    {
      HistoryFacts(h, keys[i]);
    }
  }

  // ---------------------------------------------------------------------------------------
  // Normalising a trace.
  // ---------------------------------------------------------------------------------------

  /** The result shows what the collector holds; omissions add up. */
  ghost predicate NormalizedAs(trace: Trace, s: State, result: Trace) {
    && Shows(s, result.(omittedCount := s.omittedCount))
    && result.omittedCount == s.omittedCount + (if trace.omittedCount > 0 then trace.omittedCount else 0)
    && (result.complete <==> trace.complete && AllSettled(s))
  }

  /** The states a collector goes through when it is new and observes the entries. */
  ghost predicate Feeds(list: seq<Entry>, states: seq<State>) {
    && |states| == |list| + 1 && states[0] == EMPTY
    && forall i :: 0 <= i < |list| ==> Observed(states[i], list[i], states[i + 1])
  }

  /** What sanitising makes of an entry; `clean` gives its new text. */
  function Sanitized(e: Entry, clean: Entry -> string): Entry {
    e.(text := clean(e))
  }

  function AllSanitized(list: seq<Entry>, clean: Entry -> string): (r: seq<Entry>)
    ensures |r| == |list| && forall i :: 0 <= i < |list| ==> r[i] == Sanitized(list[i], clean)
  {
    seq(|list|, i requires 0 <= i < |list| => Sanitized(list[i], clean))
  }

  /** `normalizeToolTrace`: the entries go through a new collector, which sanitises them. */
  method Normalize(trace: Trace, clean: Entry -> string) returns (result: Trace)
    ensures exists states: seq<State> ::
      Feeds(AllSanitized(trace.entries, clean), states) && NormalizedAs(trace, states[|trace.entries|], result)
  {
    hide Observed, Shows, AllSettled;
    var collector := new ToolTraceCollector();
    ghost var states := [EMPTY];
    for i := 0 to |trace.entries|
      invariant |states| == i + 1 && states[0] == EMPTY && states[i] == collector.View()
      invariant !collector.closed && collector.finalComplete.None?
      invariant forall j :: 0 <= j < i ==> Observed(states[j], Sanitized(trace.entries[j], clean), states[j + 1])
    {
      collector.Observe(Sanitized(trace.entries[i], clean));
      states := states + [collector.View()];
    }
    result := collector.Finalize(trace.complete);
    result := result.(omittedCount := result.omittedCount + if trace.omittedCount > 0 then trace.omittedCount else 0);
    assert Feeds(AllSanitized(trace.entries, clean), states);
    ShowsRestored(states[|trace.entries|], trace, result);
  }

  lemma ShowsRestored(s: State, trace: Trace, result: Trace)
    requires Shows(s, result.(omittedCount := s.omittedCount))
    requires result.omittedCount == s.omittedCount + (if trace.omittedCount > 0 then trace.omittedCount else 0)
    requires result.complete <==> trace.complete && AllSettled(s)
    ensures NormalizedAs(trace, s, result)
  {
  }

  ghost predicate Took(list: seq<Entry>, s: State) {
    && (forall k :: k in s.entries <==> exists i :: 0 <= i < |list| && list[i].sequence == k)
    && (forall i :: 0 <= i < |list| ==> list[i].sequence in s.entries && s.entries[list[i].sequence] == list[i])
    && s.omittedCount == 0
    && (list == [] ==> s.dispatchedThrough == 0)
    && (list != [] ==> s.dispatchedThrough <= list[|list| - 1].sequence)
    && (s.pending == 0 <==> forall i :: 0 <= i < |list| ==> !list[i].outcome.Unsettled?)
  }

  function Sequences(list: seq<Entry>): (r: seq<int>)
    ensures |r| == |list| && forall i :: 0 <= i < |r| ==> r[i] == list[i].sequence
  {
    seq(|list|, i requires 0 <= i < |list| => list[i].sequence)
  }

  lemma TookSorted(list: seq<Entry>, keys: set<int>)
    requires Presentable(list)
    requires forall k :: k in keys <==> exists i :: 0 <= i < |list| && list[i].sequence == k
    ensures Sorts(Sequences(list), keys)
  {
    forall k
      ensures k in keys <==> k in Sequences(list)
    {
      if k in keys {
        var i :| 0 <= i < |list| && list[i].sequence == k;
        assert Sequences(list)[i] == k;
      }
    }
  }

  /** One more entry behind the ones taken is simply added. */
  lemma TookInserts(list: seq<Entry>, s: State, e: Entry, t: State)
    requires Presentable(list + [e]) && Observed(s, e, t)
    requires forall k :: k in s.entries <==> exists i :: 0 <= i < |list| && list[i].sequence == k
    ensures t == Tallied(s, e).(entries := s.entries[e.sequence := e])
  {
    hide Observed, Inserted, Sorts, Tallied;
    var g, sorted := list + [e], Sequences(list);
    assert g[|list|] == e;
    assert forall i :: 0 <= i < |list| ==> g[i] == list[i] && list[i].sequence < e.sequence;
    TookSorted(list, s.entries.Keys);
    ObservedBy(s, e, t, sorted);
    KeysBelow(list, s.entries.Keys, e.sequence);
    SortsAppend(sorted, s.entries.Keys, e.sequence);
    TalliedKeepsEntries(s, e);
    assert s.entries[e.sequence := e].Keys == s.entries.Keys + {e.sequence};
    InsertedBy(Tallied(s, e), e, t, sorted + [e.sequence]);
  }

  lemma KeysBelow(list: seq<Entry>, keys: set<int>, n: int)
    requires forall i :: 0 <= i < |list| ==> list[i].sequence < n
    requires forall k :: k in keys <==> exists i :: 0 <= i < |list| && list[i].sequence == k
    ensures forall k :: k in keys ==> k < n
  {
    forall k | k in keys
      ensures k < n
    {
      var i :| 0 <= i < |list| && list[i].sequence == k;
    }
  }

  lemma TalliedKeepsEntries(s: State, e: Entry)
    ensures Tallied(s, e).entries == s.entries && Tallied(s, e).omittedCount == s.omittedCount
  {
  }

  lemma TookOneMore(list: seq<Entry>, s: State, e: Entry, t: State)
    requires Presentable(list + [e]) && Took(list, s) && Observed(s, e, t)
    ensures Took(list + [e], t)
  {
    hide Observed, Presentable, Tallied;
    var g := list + [e];
    assert g[|list|] == e && forall i :: 0 <= i < |list| ==> g[i] == list[i];
    TookInserts(list, s, e, t);
    TookMembers(list, s.entries.Keys, e);
    TookKeys(list, s.entries.Keys, e);
    TookTally(list, s, e);
  }

  lemma TookMembers(list: seq<Entry>, keys: set<int>, e: Entry)
    requires forall k :: k in keys <==> exists i :: 0 <= i < |list| && list[i].sequence == k
    ensures forall k :: k in keys + {e.sequence} <==> exists i :: 0 <= i < |list + [e]| && (list + [e])[i].sequence == k
  {
    var g := list + [e];
    assert g[|list|] == e && forall i :: 0 <= i < |list| ==> g[i] == list[i];
    forall k
      ensures k in keys + {e.sequence} <==> exists i :: 0 <= i < |g| && g[i].sequence == k
    {
      if k in keys {
        var i :| 0 <= i < |list| && list[i].sequence == k;
        assert g[i].sequence == k;
      }
    }
  }

  lemma TookTally(list: seq<Entry>, s: State, e: Entry)
    requires Presentable(list + [e]) && e.sequence !in s.entries
    requires list == [] ==> s.dispatchedThrough == 0
    requires list != [] ==> s.dispatchedThrough <= list[|list| - 1].sequence
    ensures var c := Tallied(s, e);
      && c.pending == s.pending + (if e.outcome.Unsettled? then 1 else 0)
      && c.dispatchedThrough <= e.sequence && c.omittedCount == s.omittedCount
  {
    var g := list + [e];
    assert g[|list|] == e && forall i :: 0 <= i < |list| ==> g[i] == list[i];
    assert list != [] ==> g[|list| - 1].sequence < e.sequence;
  }

  lemma TookKeys(list: seq<Entry>, keys: set<int>, e: Entry)
    requires Presentable(list + [e])
    requires forall k :: k in keys <==> exists i :: 0 <= i < |list| && list[i].sequence == k
    ensures e.sequence !in keys
  {
    var g := list + [e];
    assert g[|list|] == e && forall i :: 0 <= i < |list| ==> g[i] == list[i];
  }

  lemma {:induction false} TookAll(list: seq<Entry>, states: seq<State>)
    requires Presentable(list) && |states| == |list| + 1 && states[0] == EMPTY
    requires forall i :: 0 <= i < |list| ==> Observed(states[i], list[i], states[i + 1])
    ensures Took(list, states[|list|])
  {
    if list != [] {
      var before := list[..|list| - 1];
      assert list == before + [list[|list| - 1]];
      TookAll(before, states[..|list|]);
      TookOneMore(before, states[|list| - 1], list[|list| - 1], states[|list|]);
    }
  }

  lemma ShownIsTaken(list: seq<Entry>, s: State, trace: Trace)
    requires Presentable(list) && Took(list, s) && Shows(s, trace)
    ensures trace.entries == list
  {
    hide Sorts, Presentable;
    TookSorted(list, s.entries.Keys);
    var keys: seq<int> :| Sorts(keys, s.entries.Keys) && Lists(s.entries, keys, trace.entries);
    SortsUnique(keys, Sequences(list), s.entries.Keys);
  }

  lemma TakenIsSettled(list: seq<Entry>, s: State)
    requires Took(list, s) && forall i :: 0 <= i < |list| ==> !list[i].outcome.Unsettled?
    ensures AllSettled(s)
  {
    forall k | k in s.entries
      ensures !s.entries[k].outcome.Unsettled?
    {
      var i :| 0 <= i < |list| && list[i].sequence == k;
    }
  }

  /** A collector that was fed a presentable list shows that list. */
  lemma ShownAgain(trace: Trace, states: seq<State>, result: Trace)
    requires Presentable(trace.entries) && trace.omittedCount >= 0
    requires trace.complete ==> forall i :: 0 <= i < |trace.entries| ==> !trace.entries[i].outcome.Unsettled?
    requires Feeds(trace.entries, states)
    requires NormalizedAs(trace, states[|trace.entries|], result)
    ensures result == trace
  {
    hide Observed, Presentable, Took, Shows, AllSettled;
    var list, s := trace.entries, states[|trace.entries|];
    TookAll(list, states);
    ShownIsTaken(list, s, result.(omittedCount := s.omittedCount));
    TookNoneOmitted(list, s);
    if trace.complete {
      TakenIsSettled(list, s);
    }
  }

  /** Normalising a trace that a collector made sanitises its texts once more and changes nothing else:
      the same calls in the same order, the same count, and it is complete exactly when it was. So it
      leaves the trace as it is if and only if sanitising leaves each of its texts as it is. */
  lemma NormalizeIsStable(trace: Trace, clean: Entry -> string, states: seq<State>, result: Trace)
    requires Presentable(trace.entries) && trace.omittedCount >= 0
    requires trace.complete ==> forall i :: 0 <= i < |trace.entries| ==> !trace.entries[i].outcome.Unsettled?
    requires Feeds(AllSanitized(trace.entries, clean), states)
    requires NormalizedAs(trace, states[|trace.entries|], result)
    ensures result == trace.(entries := AllSanitized(trace.entries, clean))
    ensures result == trace <==> forall i :: 0 <= i < |trace.entries| ==>
      clean(trace.entries[i]) == trace.entries[i].text
  {
    SanitizedIsPresentable(trace.entries, clean);
    SanitizedIsSame(trace.entries, clean);
    hide Presentable, Feeds, Shows, AllSettled, Sanitized;
    ShownAgain(trace.(entries := AllSanitized(trace.entries, clean)), states, result);
  }

  /** What a collector holds after any observations whatever, as stored data may bring them: at most
      50 calls with a valid sequence, each as last observed. */
  ghost predicate Orderly(list: seq<Entry>, s: State) {
    && |s.entries| <= TOOL_TRACE_MAX_ENTRIES
    && forall k :: k in s.entries ==> k >= 1 && s.entries[k].sequence == k && Latest(list, k) == Some(s.entries[k])
  }

  lemma ObservedIsOrderly(list: seq<Entry>, s: State, e: Entry, t: State)
    requires Orderly(list, s) && Observed(s, e, t)
    ensures Orderly(list + [e], t)
  {
    hide Sorts, FallsBetween;
    var g := list + [e];
    assert g[..|g| - 1] == list && g[|g| - 1] == e;
    assert forall k :: k != e.sequence ==> Latest(g, k) == Latest(list, k);
    if e.sequence >= 1 {
      var c := Tallied(s, e);
      TalliedKeepsEntries(s, e);
      var sorted: seq<int> :| Sorts(sorted, s.entries.Keys) && ObservedWith(s, e, t, sorted);
      if FallsBetween(sorted, e) {
        NotHeld(s, sorted, e);
      } else {
        var after: seq<int> :| Sorts(after, c.entries[e.sequence := e].Keys) && InsertedAs(c, e, t, after);
        OneGoes(c.entries[e.sequence := e], after);
      }
    }
  }

  lemma NotHeld(s: State, sorted: seq<int>, e: Entry)
    requires Sorts(sorted, s.entries.Keys) && FallsBetween(sorted, e)
    ensures e.sequence !in s.entries
  {
    Listed(sorted, s.entries.Keys, e.sequence);
  }

  lemma OneGoes(entries: map<int, Entry>, keys: seq<int>)
    requires Sorts(keys, entries.Keys) && |entries| <= TOOL_TRACE_MAX_ENTRIES + 1
    ensures |keys| == |entries|
    ensures |keys| > HEAD ==> |entries - {keys[HEAD]}| == |entries| - 1
  {
    SortsSize(keys, entries.Keys);
    if |keys| > HEAD {
      Listed(keys, entries.Keys, keys[HEAD]);
      assert (entries - {keys[HEAD]}).Keys == entries.Keys - {keys[HEAD]};
    }
  }

  lemma {:induction false} FeedsOrderly(list: seq<Entry>, states: seq<State>)
    requires Feeds(list, states)
    ensures Orderly(list, states[|list|])
  {
    hide Observed;
    if list != [] {
      var before := list[..|list| - 1];
      assert list == before + [list[|list| - 1]];
      FeedsOrderly(before, states[..|list|]);
      ObservedIsOrderly(before, states[|list| - 1], list[|list| - 1], states[|list|]);
    }
  }

  /** Whatever is normalised, with sequences that are invalid, repeated or out of order: the result is a
      trace a collector can show, and each of its entries is the last of its sequence, sanitised. */
  lemma NormalizedIsPresentable(trace: Trace, clean: Entry -> string, states: seq<State>, result: Trace)
    requires Feeds(AllSanitized(trace.entries, clean), states)
    requires NormalizedAs(trace, states[|trace.entries|], result)
    ensures Presentable(result.entries) && result.omittedCount >= 0
    ensures forall i :: 0 <= i < |result.entries| ==>
      Latest(AllSanitized(trace.entries, clean), result.entries[i].sequence) == Some(result.entries[i])
    ensures result.complete ==> forall i :: 0 <= i < |result.entries| ==> !result.entries[i].outcome.Unsettled?
  {
    hide Observed, Latest, Sorts;
    var list, s := AllSanitized(trace.entries, clean), states[|trace.entries|];
    FeedsOrderly(list, states);
    var keys: seq<int> :| Sorts(keys, s.entries.Keys) && Lists(s.entries, keys, result.entries);
    SortsSize(keys, s.entries.Keys);
    SortsAscend(keys, s.entries.Keys);
    forall i | 0 <= i < |result.entries|
      ensures keys[i] in s.entries && result.entries[i] == s.entries[keys[i]] && result.entries[i].sequence == keys[i]
    {
      Listed(keys, s.entries.Keys, keys[i]);
    }
  }

  lemma SortsAscend(keys: seq<int>, all: set<int>)
    requires Sorts(keys, all)
    ensures forall i, j :: 0 <= i < j < |keys| ==> keys[i] < keys[j]
  {
  }

  /** So normalising twice sanitises the texts twice, and does nothing else twice. */
  lemma NormalizeTwice(trace: Trace, clean: Entry -> string, states: seq<State>, once: Trace, more: seq<State>,
                       twice: Trace)
    requires Feeds(AllSanitized(trace.entries, clean), states)
    requires NormalizedAs(trace, states[|trace.entries|], once)
    requires Feeds(AllSanitized(once.entries, clean), more)
    requires NormalizedAs(once, more[|once.entries|], twice)
    ensures twice == once.(entries := AllSanitized(once.entries, clean))
  {
    hide Feeds, NormalizedAs, Presentable, Sanitized, Latest;
    NormalizedIsPresentable(trace, clean, states, once);
    NormalizeIsStable(once, clean, more, twice);
  }

  lemma SanitizedIsPresentable(list: seq<Entry>, clean: Entry -> string)
    requires Presentable(list)
    ensures Presentable(AllSanitized(list, clean))
    ensures forall i :: 0 <= i < |list| ==> AllSanitized(list, clean)[i].outcome == list[i].outcome
  {
  }

  lemma SanitizedIsSame(list: seq<Entry>, clean: Entry -> string)
    ensures AllSanitized(list, clean) == list <==> forall i :: 0 <= i < |list| ==> clean(list[i]) == list[i].text
  {
    if AllSanitized(list, clean) == list {
      forall i | 0 <= i < |list|
        ensures clean(list[i]) == list[i].text
      {
        assert AllSanitized(list, clean)[i] == list[i];
      }
    }
  }

  lemma TookNoneOmitted(list: seq<Entry>, s: State)
    requires Took(list, s)
    ensures s.omittedCount == 0
  {
  }
}
