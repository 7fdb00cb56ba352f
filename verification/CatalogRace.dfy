/**
 Any number of processes create or adopt one collection at the same time. Each call of
 `createCollection` is a sequence of database statements; any statement may fail before it runs,
 run and lose its reply, or lose its reply and take effect later, even after its call has ended.
 There is no concurrent delete.
 */
module CatalogRace {

  import opened Wrappers

  type Pid = nat

  datatype Outcome = Created | Duplicate | Orphan | Failed

  datatype Phase =
    | Checking      // does a record exist
    | Probing       // adopt: is the table there
    | Creating      // create table, fails if it exists
    | TableCheck    // the creation failed: is the table there
    | RecordCheck   // it is: does it have a record
    | Inserting     // insert the record, fails if there is one
    | ReadBack      // the insert failed: is there a record now
    | Done(outcome: Outcome)

  datatype Call = Call(adopts: bool, phase: Phase)

  /** A statement that was given up on and may still take effect. */
  datatype Write = MakesTable(p: Pid) | MakesRecord(p: Pid)

  datatype State = State(
    table: bool,
    record: Option<Pid>,         // the call whose insert made it
    calls: map<Pid, Call>,
    maker: Option<Pid>,          // the call whose statement created the table
    late: set<Write>)

  datatype Fate = Fine | NotRun | ReplyLost | Late

  datatype Action = Begin(p: Pid, adopts: bool) | Step(p: Pid, fate: Fate) | Land(w: Write)

  predicate Enabled(s: State, a: Action) {
    match a
    case Begin(p, _) => p !in s.calls
    case Step(p, _) => p in s.calls && !s.calls[p].phase.Done?
    case Land(w) => w in s.late
  }

  /** One statement of a call: the database afterwards and where the call goes on. */
  function Next(s: State, a: Action): State
    requires Enabled(s, a)
  {
    match a
    case Begin(p, adopts) => s.(calls := s.calls[p := Call(adopts, Checking)])
    case Land(w) => Landed(s.(late := s.late - {w}), w)
    case Step(p, fate) =>
      var runs, heard := fate in {Fine, ReplyLost}, fate == Fine;
      match s.calls[p].phase
      case Checking =>
        GoTo(s, p, if !heard then Done(Failed)
                   else if s.record.Some? then Done(Duplicate)
                   else if s.calls[p].adopts then Probing else Creating)
      case Probing => GoTo(s, p, if heard && s.table then Inserting else Done(Failed))
      case Creating =>
        var creates := runs && !s.table;
        var m := if creates then Landed(s, MakesTable(p)) else Sent(s, fate, MakesTable(p));
        GoTo(m, p, if creates && heard then Inserting else TableCheck)
      case TableCheck => GoTo(s, p, if heard && s.table then RecordCheck else Done(Failed))
      case RecordCheck =>
        GoTo(s, p, if !heard then Done(Failed) else if s.record.Some? then Done(Duplicate) else Done(Orphan))
      case Inserting =>
        var inserts := runs && s.record.None?;
        var m := if inserts then Landed(s, MakesRecord(p)) else Sent(s, fate, MakesRecord(p));
        GoTo(m, p, if inserts && heard then Done(Created) else ReadBack)
      case ReadBack => GoTo(s, p, if heard && s.record.Some? then Done(Duplicate) else Done(Orphan))
      case Done(_) => s
  }

  /** A statement takes effect, unless what it makes is there. */
  function Landed(s: State, w: Write): State {
    match w
    case MakesTable(p) => if s.table then s else s.(table := true, maker := Some(p))
    case MakesRecord(p) => if s.record.Some? then s else s.(record := Some(p))
  }

  function Sent(s: State, fate: Fate, w: Write): State {
    if fate == Late then s.(late := s.late + {w}) else s
  }

  function GoTo(s: State, p: Pid, phase: Phase): State
    requires p in s.calls
  {
    s.(calls := s.calls[p := s.calls[p].(phase := phase)])
  }

  predicate Legal(s: State, steps: seq<Action>)
    decreases |steps|
  {
    steps == [] || (Enabled(s, steps[0]) && Legal(Next(s, steps[0]), steps[1..]))
  }

  function After(s: State, steps: seq<Action>): State
    requires Legal(s, steps)
    decreases |steps|
  {
    if steps == [] then s else After(Next(s, steps[0]), steps[1..])
  }

  /** No call yet; the table may be there already, without a record. */
  predicate Initial(s: State) {
    s.calls == map[] && s.record.None? && s.maker.None? && s.late == {}
  }

  // ---------------------------------------------------------------------------------------
  // Safety, whatever statement fails.
  // ---------------------------------------------------------------------------------------

  ghost predicate Safe(s: State) {
    && (s.record.Some? ==> s.table)
    && (forall w :: w in s.late && w.MakesRecord? ==> s.table)
    && (forall p :: p in s.calls && s.calls[p].phase == Done(Created) ==> s.record == Some(p))
    && (forall p :: p in s.calls && s.calls[p].phase == Done(Duplicate) ==> s.record.Some?)
    && (forall p :: p in s.calls && s.calls[p].phase in {Inserting, ReadBack, RecordCheck, Done(Orphan)} ==> s.table)
    && (forall p :: p in s.calls && !HasSent(s.calls[p].phase) ==> s.record != Some(p) && MakesRecord(p) !in s.late)
    && (forall p: Pid :: s.record == Some(p) || MakesRecord(p) in s.late ==> p in s.calls)
  }

  /** The call may have sent its insert. */
  predicate HasSent(phase: Phase) {
    phase.ReadBack? || phase in {Done(Created), Done(Duplicate), Done(Orphan)}
  }

  lemma SafeStep(s: State, a: Action)
    requires Safe(s) && Enabled(s, a)
    ensures Safe(Next(s, a))
    ensures s.record.Some? ==> Next(s, a).record == s.record
  {
    if a.Step? && s.calls[a.p].phase in {Creating, Inserting} {
      WritingIsSafe(s, a.p, a.fate);
    } else if a.Step? {
      AskingIsSafe(s, a.p, a.fate);
    }
  }

  /** The statements that change something. */
  lemma WritingIsSafe(s: State, p: Pid, fate: Fate)
    requires Safe(s) && Enabled(s, Step(p, fate)) && s.calls[p].phase in {Creating, Inserting}
    ensures Safe(Next(s, Step(p, fate)))
    ensures s.record.Some? ==> Next(s, Step(p, fate)).record == s.record
  {
  }

  /** The statements that only look. */
  lemma AskingIsSafe(s: State, p: Pid, fate: Fate)
    requires Safe(s) && Enabled(s, Step(p, fate)) && s.calls[p].phase !in {Creating, Inserting}
    ensures Safe(Next(s, Step(p, fate))) && Next(s, Step(p, fate)).record == s.record
  {
    var phase := Next(s, Step(p, fate)).calls[p].phase;
    GoingOnIsSafe(s, p, phase);
    hide Safe;
    assert Next(s, Step(p, fate)) == GoTo(s, p, phase);
  }

  /** Where a call may go on after a statement that only looked. */
  lemma GoingOnIsSafe(s: State, p: Pid, phase: Phase)
    requires Safe(s) && p in s.calls && phase != Done(Created)
    requires phase == Done(Duplicate) ==> s.record.Some?
    requires phase in {Inserting, ReadBack, RecordCheck, Done(Orphan)} ==> s.table
    requires HasSent(s.calls[p].phase) ==> HasSent(phase)
    ensures Safe(GoTo(s, p, phase))
  {
  }

  lemma {:induction false} RunsSafe(s: State, steps: seq<Action>)
    requires Safe(s) && Legal(s, steps)
    ensures Safe(After(s, steps))
    ensures s.record.Some? ==> After(s, steps).record == s.record
    decreases |steps|
  {
    if steps != [] {
      SafeStep(s, steps[0]);
      RunsSafe(Next(s, steps[0]), steps[1..]);
    }
  }

  /** However many calls race and whatever statements fail or lose their reply: at most one call
      reports success, its own record is the one stored, and a record never exists without its
      table. A call that reports a duplicate or an orphan is right that a record or a table exists, and
      one that fails has stored no record and never will. */
  lemma AtMostOneCreated(start: State, steps: seq<Action>, p: Pid, q: Pid)
    requires Initial(start) && Legal(start, steps)
    requires var s := After(start, steps); p in s.calls && q in s.calls
    ensures var s := After(start, steps);
      && (s.calls[p].phase == Done(Created) && s.calls[q].phase == Done(Created) ==> p == q)
      && (s.calls[p].phase == Done(Created) ==> s.record == Some(p))
      && (s.calls[p].phase == Done(Duplicate) ==> s.record.Some?)
      && (s.calls[p].phase == Done(Orphan) ==> s.table)
      && (s.calls[p].phase == Done(Failed) ==> s.record != Some(p) && MakesRecord(p) !in s.late)
      && (s.record.Some? ==> s.table)
  {
    RunsSafe(start, steps);
  }

  // ---------------------------------------------------------------------------------------
  // Exactly when a call ends as it does.
  // ---------------------------------------------------------------------------------------

  /** What has to happen at a statement of the call for it to end as it does. */
  predicate Shows(s: State, a: Action, p: Pid, outcome: Outcome) {
    a.Step? && a.p == p && p in s.calls &&
    var phase, answered := s.calls[p].phase, a.fate == Fine;
    match outcome
    case Created => phase == Inserting && answered && s.record.None?
    case Duplicate => phase in {Checking, RecordCheck, ReadBack} && answered && s.record.Some?
    case Failed =>
      || (phase in {Checking, Probing, TableCheck, RecordCheck} && !answered)
      || (phase in {Probing, TableCheck} && !s.table)
    case Orphan =>
      || (phase == ReadBack && !answered)
      || (phase in {ReadBack, RecordCheck} && answered && s.record.None?)
  }

  ghost predicate Sometime(s: State, steps: seq<Action>, p: Pid, outcome: Outcome)
    requires Legal(s, steps)
    decreases |steps|
  {
    steps != [] && (Shows(s, steps[0], p, outcome) || Sometime(Next(s, steps[0]), steps[1..], p, outcome))
  }

  predicate EndedAs(s: State, p: Pid, outcome: Outcome) {
    p in s.calls && s.calls[p].phase == Done(outcome)
  }

  lemma {:induction false} RunsShow(s: State, steps: seq<Action>, p: Pid, outcome: Outcome)
    requires Legal(s, steps)
    ensures EndedAs(After(s, steps), p, outcome) <==> EndedAs(s, p, outcome) || Sometime(s, steps, p, outcome)
    decreases |steps|
  {
    if steps != [] {
      OneShows(s, steps[0], p, outcome);
      hide Next, Enabled, EndedAs, Shows;
      RunsShow(Next(s, steps[0]), steps[1..], p, outcome);
    }
  }

  lemma OneShows(s: State, a: Action, p: Pid, outcome: Outcome)
    requires Enabled(s, a)
    ensures EndedAs(Next(s, a), p, outcome) <==> EndedAs(s, p, outcome) || Shows(s, a, p, outcome)
  {
  }

  /** Whatever statements failed in a run, a call has reported success if and only if, at some step,
      its insert ran while no record was stored and the reply of that insert arrived. It has reported
      a duplicate exactly when it saw a record, a failure exactly when a question before its insert was
      not answered or found no table, and an orphan exactly when it saw no record, or could not look,
      once there was a table. */
  lemma OutcomeIffSeen(start: State, steps: seq<Action>, p: Pid, outcome: Outcome)
    requires Initial(start) && Legal(start, steps)
    ensures EndedAs(After(start, steps), p, outcome) <==> Sometime(start, steps, p, outcome)
  {
    RunsShow(start, steps, p, outcome);
  }

  // ---------------------------------------------------------------------------------------
  // Without faults.
  // ---------------------------------------------------------------------------------------

  predicate AllFine(steps: seq<Action>) {
    forall k :: 0 <= k < |steps| ==> steps[k].Step? ==> steps[k].fate == Fine
  }

  ghost predicate Faultless(s: State) {
    && s.late == {}
    && (s.record.Some? ==> s.record.value in s.calls && s.calls[s.record.value].phase == Done(Created))
    && (forall p :: p in s.calls && s.calls[p].phase == ReadBack ==> s.record.Some?)
    && (forall p :: p in s.calls && s.calls[p].phase == TableCheck ==> s.table)
    && (forall p :: p in s.calls && !s.calls[p].adopts ==> s.calls[p].phase !in {Probing, Done(Failed)})
    && (forall p :: p in s.calls && s.calls[p].adopts ==> s.calls[p].phase !in {Creating, TableCheck, RecordCheck})
  }

  /** A call that is on its way to a record. */
  predicate Leads(s: State, p: Pid)
    requires p in s.calls
  {
    var c := s.calls[p];
    c.phase == Inserting || (s.table && c.adopts && c.phase in {Checking, Probing})
  }

  /** A record is due once a call has made the table, or a call to adopt finds one. */
  ghost predicate Due(s: State) {
    s.table && (s.maker.Some? || exists p :: p in s.calls && s.calls[p].adopts)
  }

  ghost predicate Clean(s: State) {
    && Faultless(s)
    && (Due(s) ==> s.record.Some? || exists p :: p in s.calls && Leads(s, p))
  }

  lemma FaultlessStep(s: State, a: Action)
    requires Safe(s) && Faultless(s) && Enabled(s, a) && AllFine([a])
    ensures Faultless(Next(s, a))
  {
    assert [a][0] == a;
    if a.Step? && s.calls[a.p].phase in {Creating, Inserting} {
      WritingIsFaultless(s, a.p);
    } else if a.Step? {
      AskingIsFaultless(s, a.p);
    }
  }

  lemma WritingIsFaultless(s: State, p: Pid)
    requires Safe(s) && Faultless(s) && Enabled(s, Step(p, Fine)) && s.calls[p].phase in {Creating, Inserting}
    ensures Faultless(Next(s, Step(p, Fine)))
  {
  }

  lemma AskingIsFaultless(s: State, p: Pid)
    requires Safe(s) && Faultless(s) && Enabled(s, Step(p, Fine)) && s.calls[p].phase !in {Creating, Inserting}
    ensures Faultless(Next(s, Step(p, Fine)))
  {
  }

  lemma CleanStep(s: State, a: Action)
    requires Safe(s) && Clean(s) && Enabled(s, a) && AllFine([a])
    ensures Clean(Next(s, a))
  {
    FaultlessStep(s, a);
    assert [a][0] == a;
    var t := Next(s, a);
    if Due(t) && t.record.None? {
      if a.Begin? {
        NewCallLeads(s, a.p, a.adopts);
      } else if Due(s) {
        var p :| p in s.calls && Leads(s, p);
        assert Leads(t, p);
      } else {
        assert Leads(t, a.p);
      }
    }
  }

  lemma NewCallLeads(s: State, p: Pid, adopts: bool)
    requires Clean(s) && p !in s.calls && s.record.None?
    requires Due(Next(s, Begin(p, adopts)))
    ensures exists q :: q in Next(s, Begin(p, adopts)).calls && Leads(Next(s, Begin(p, adopts)), q)
  {
    var t := Next(s, Begin(p, adopts));
    if adopts {
      assert Leads(t, p);
    } else {
      assert Due(s) by {
        if s.maker.None? {
          var q :| q in t.calls && t.calls[q].adopts;
          assert q in s.calls && s.calls[q].adopts;
        }
      }
      var q :| q in s.calls && Leads(s, q);
      assert Leads(t, q);
    }
  }

  lemma {:induction false} RunsClean(s: State, steps: seq<Action>)
    requires Safe(s) && Clean(s) && Legal(s, steps) && AllFine(steps)
    ensures Safe(After(s, steps)) && Clean(After(s, steps))
    decreases |steps|
  {
    hide Safe, Clean, Next;
    if steps != [] {
      assert [steps[0]][0] == steps[0];
      assert forall k :: 0 <= k < |steps[1..]| ==> steps[1..][k] == steps[k + 1];
      SafeStep(s, steps[0]);
      CleanStep(s, steps[0]);
      RunsClean(Next(s, steps[0]), steps[1..]);
    }
  }

  predicate Succeeded(s: State, p: Pid) { EndedAs(s, p, Created) }

  predicate AllEnded(s: State) {
    forall p :: p in s.calls ==> s.calls[p].phase.Done?
  }

  /** A call that can succeed: one to create on a fresh name, or one to adopt a table that was left
      without a record. */
  ghost predicate SomeCanSucceed(start: State, s: State) {
    exists p :: p in s.calls && s.calls[p].adopts == start.table
  }

  /** Without faults, once all calls have ended: if one of them could succeed, exactly one did, and the
      table and its record exist; otherwise none did, and there is no record. */
  lemma ExactlyOneCreated(start: State, steps: seq<Action>)
    requires Initial(start) && Legal(start, steps) && AllFine(steps) && AllEnded(After(start, steps))
    ensures var s := After(start, steps);
      && (exists p: Pid :: Succeeded(s, p)) == SomeCanSucceed(start, s) == s.record.Some?
      && (forall p: Pid :: Succeeded(s, p) ==> s.table && s.record == Some(p))
  {
    RunsClean(start, steps);
    var s := After(start, steps);
    if SomeCanSucceed(start, s) {
      var p :| p in s.calls && s.calls[p].adopts == start.table;
      TableStays(start, steps);
      assert !start.table ==> s.table && s.maker.Some?;
      assert Due(s);
      assert forall q :: q in s.calls ==> !Leads(s, q);
      assert Succeeded(s, s.record.value);
    } else {
      NobodyCan(start, steps, start.table);
    }
  }

  /** Tables are never removed, and one that was not there has a maker; a call to create ends
      only when there is one. */
  lemma {:induction false} TableStays(s: State, steps: seq<Action>)
    requires Safe(s) && Clean(s) && Legal(s, steps) && AllFine(steps)
    requires forall p :: p in s.calls && !s.calls[p].adopts && s.calls[p].phase.Done? ==> s.table
    ensures var t := After(s, steps);
      && (s.table ==> t.table) && (!s.table && s.maker.None? && t.table ==> t.maker.Some?)
      && (forall p :: p in t.calls && !t.calls[p].adopts && t.calls[p].phase.Done? ==> t.table)
      && (s.maker.Some? ==> t.maker.Some?)
    decreases |steps|
  {
    hide Safe, Clean;
    if steps != [] {
      assert [steps[0]][0] == steps[0];
      assert forall k :: 0 <= k < |steps[1..]| ==> steps[1..][k] == steps[k + 1];
      SafeStep(s, steps[0]);
      CleanStep(s, steps[0]);
      EndedHasTable(s, steps[0]);
      hide Next;
      TableStays(Next(s, steps[0]), steps[1..]);
    }
  }

  lemma EndedHasTable(s: State, a: Action)
    requires Safe(s) && Clean(s) && Enabled(s, a) && AllFine([a])
    requires forall p :: p in s.calls && !s.calls[p].adopts && s.calls[p].phase.Done? ==> s.table
    ensures var t := Next(s, a);
      && (s.table ==> t.table) && (!s.table && t.table ==> t.maker.Some?) && (s.maker.Some? ==> t.maker.Some?)
      && (forall p :: p in t.calls && !t.calls[p].adopts && t.calls[p].phase.Done? ==> t.table)
  {
    assert [a][0] == a;
  }

  /** Without a call that could succeed the database stays as it is. */
  ghost predicate Idle(s: State, table: bool) {
    && s.table == table && s.record.None? && s.late == {}
    && forall p :: p in s.calls ==>
         s.calls[p].adopts != table && s.calls[p].phase !in {Inserting, ReadBack, Done(Created)}
  }

  lemma {:induction false} NobodyCan(s: State, steps: seq<Action>, table: bool)
    requires Safe(s) && Clean(s) && Legal(s, steps) && AllFine(steps)
    requires Idle(s, table) && forall p :: p in After(s, steps).calls ==> After(s, steps).calls[p].adopts != table
    ensures Idle(After(s, steps), table)
    decreases |steps|
  {
    hide Safe, Clean;
    if steps != [] {
      assert [steps[0]][0] == steps[0];
      assert forall k :: 0 <= k < |steps[1..]| ==> steps[1..][k] == steps[k + 1];
      SafeStep(s, steps[0]);
      CleanStep(s, steps[0]);
      var n := Next(s, steps[0]);
      CallsStay(n, steps[1..]);
      var t := After(s, steps);
      assert forall p :: p in n.calls ==> p in t.calls && n.calls[p].adopts == t.calls[p].adopts;
      StaysIdle(s, steps[0], table);
      hide Next;
      assert t == After(n, steps[1..]);
      NobodyCan(n, steps[1..], table);
    }
  }

  lemma StaysIdle(s: State, a: Action, table: bool)
    requires Safe(s) && Clean(s) && Enabled(s, a) && AllFine([a]) && Idle(s, table)
    requires forall p :: p in Next(s, a).calls ==> Next(s, a).calls[p].adopts != table
    ensures Idle(Next(s, a), table)
  {
    assert [a][0] == a;
  }

  lemma {:induction false} CallsStay(s: State, steps: seq<Action>)
    requires Legal(s, steps)
    ensures var t := After(s, steps);
      forall p :: p in s.calls ==> p in t.calls && t.calls[p].adopts == s.calls[p].adopts
    decreases |steps|
  {
    if steps != [] {
      CallsStay(Next(s, steps[0]), steps[1..]);
    }
  }

  /** What a call reports is what its last statement found, in every run without faults: a record, and
      it is a duplicate; no table, and it failed to adopt one; a table without a record, and it left it
      alone, unless the statement was its insert, and then it has succeeded. */
  lemma ReportsWhatItFound(start: State, steps: seq<Action>, p: Pid)
    requires Initial(start) && Legal(start, steps) && AllFine(steps)
    requires Enabled(After(start, steps), Step(p, Fine))
    ensures var s := After(start, steps);
      var phase := Next(s, Step(p, Fine)).calls[p].phase;
      phase.Done? ==>
        && (phase == Done(Duplicate) <==> s.record.Some?)
        && (phase == Done(Failed) <==> !s.table)
        && (phase == Done(Created) <==> s.table && s.record.None? && s.calls[p].phase == Inserting)
        && (phase == Done(Orphan) <==> s.table && s.record.None? && s.calls[p].phase == RecordCheck)
  {
    RunsClean(start, steps);
  }

  /** The statements a call still has to run at most. */
  function Remaining(phase: Phase): nat {
    match phase
    case Checking => 4
    case Creating => 3
    case Probing => 3
    case TableCheck => 2
    case Inserting => 2
    case RecordCheck => 1
    case ReadBack => 1
    case Done(_) => 0
  }

  /** Every call ends after at most four statements of its own. */
  lemma CallsEnd(s: State, p: Pid, fate: Fate)
    requires Enabled(s, Step(p, fate))
    ensures Remaining(Next(s, Step(p, fate)).calls[p].phase) < Remaining(s.calls[p].phase)
    ensures forall q :: q in s.calls && q != p ==> Next(s, Step(p, fate)).calls[q] == s.calls[q]
  {
  }

  /** The reply of the winning insert can be lost: the record is stored and no call succeeds. */
  lemma NoneCreatedAfterLostReply()
    ensures var start := State(false, None, map[], None, {});
      var steps := [Begin(0, false), Step(0, Fine), Step(0, Fine), Step(0, ReplyLost), Step(0, Fine)];
      && Legal(start, steps)
      && After(start, steps).record == Some(0) && After(start, steps).calls[0].phase == Done(Duplicate)
  {
    var start := State(false, None, map[], None, {});
    var s1 := Next(start, Begin(0, false));
    var s2 := Next(s1, Step(0, Fine));
    var s3 := Next(s2, Step(0, Fine));
    var s4 := Next(s3, Step(0, ReplyLost));
    One(s4, Step(0, Fine), []);
    One(s3, Step(0, ReplyLost), [Step(0, Fine)]);
    One(s2, Step(0, Fine), [Step(0, ReplyLost), Step(0, Fine)]);
    One(s1, Step(0, Fine), [Step(0, Fine), Step(0, ReplyLost), Step(0, Fine)]);
    One(start, Begin(0, false), [Step(0, Fine), Step(0, Fine), Step(0, ReplyLost), Step(0, Fine)]);
  }

  /** A call can report an orphan and still have its record stored afterwards: its insert was given
      up on and takes effect late. */
  lemma StoredAfterOrphan()
    ensures var start := State(true, None, map[], None, {});
      var steps := [Begin(0, true), Step(0, Fine), Step(0, Fine), Step(0, Late), Step(0, Fine)];
      && Legal(start, steps) && EndedAs(After(start, steps), 0, Orphan)
      && Legal(After(start, steps), [Land(MakesRecord(0))])
      && After(After(start, steps), [Land(MakesRecord(0))]).record == Some(0)
  {
    var start := State(true, None, map[], None, {});
    var s1 := Next(start, Begin(0, true));
    var s2 := Next(s1, Step(0, Fine));
    var s3 := Next(s2, Step(0, Fine));
    var s4 := Next(s3, Step(0, Late));
    One(s4, Step(0, Fine), []);
    One(s3, Step(0, Late), [Step(0, Fine)]);
    One(s2, Step(0, Fine), [Step(0, Late), Step(0, Fine)]);
    One(s1, Step(0, Fine), [Step(0, Fine), Step(0, Late), Step(0, Fine)]);
    One(start, Begin(0, true), [Step(0, Fine), Step(0, Fine), Step(0, Late), Step(0, Fine)]);
    One(Next(s4, Step(0, Fine)), Land(MakesRecord(0)), []);
  }

  /** In the same way a call can report a failure and have its table made afterwards. */
  lemma TableAfterFailure()
    ensures var start := State(false, None, map[], None, {});
      var steps := [Begin(0, false), Step(0, Fine), Step(0, Late), Step(0, Fine)];
      && Legal(start, steps) && EndedAs(After(start, steps), 0, Failed)
      && Legal(After(start, steps), [Land(MakesTable(0))])
      && After(After(start, steps), [Land(MakesTable(0))]).table
  {
    var start := State(false, None, map[], None, {});
    var s1 := Next(start, Begin(0, false));
    var s2 := Next(s1, Step(0, Fine));
    var s3 := Next(s2, Step(0, Late));
    One(s3, Step(0, Fine), []);
    One(s2, Step(0, Late), [Step(0, Fine)]);
    One(s1, Step(0, Fine), [Step(0, Late), Step(0, Fine)]);
    One(start, Begin(0, false), [Step(0, Fine), Step(0, Late), Step(0, Fine)]);
    One(Next(s3, Step(0, Fine)), Land(MakesTable(0)), []);
  }

  lemma One(s: State, a: Action, more: seq<Action>)
    requires Enabled(s, a) && Legal(Next(s, a), more)
    ensures Legal(s, [a] + more) && After(s, [a] + more) == After(Next(s, a), more)
  {
    assert ([a] + more)[1..] == more;
  }
}
