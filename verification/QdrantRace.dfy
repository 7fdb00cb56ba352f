/**
 The race of `CatalogRace` on Qdrant, which ignores an insert whose point exists and answers it with success.
 A call decides by reading the record back and comparing its own write id. A write may take effect
 at any time after it was sent, even after its reply was given up on, or never.
 */
module QdrantRace {

  import opened Wrappers

  /** A call, and the write id it makes up; they are unique. */
  type Pid = nat

  datatype Outcome = Created | Duplicate | Orphan | Failed

  datatype Phase =
    | Checking      // read the record
    | Probing       // adopt: does the collection exist
    | Creating      // create the collection
    | TableCheck    // it was refused: does the collection exist
    | RecordCheck   // it does: does it have a record
    | Inserting     // send the insert_only write
    | ReadBack      // whose record is stored
    | Done(outcome: Outcome)

  datatype Call = Call(adopts: bool, phase: Phase)

  datatype State = State(
    collection: bool,
    record: Option<Pid>,         // the write id stored
    calls: map<Pid, Call>,
    flying: set<Pid>,            // writes sent that may still take effect
    building: bool)              // a creation was sent that may still take effect

  /** `Refused` is an error status, and `Lost` a request that throws. */
  datatype Reply = Accepted | Refused | Lost

  /** `effect`: a request that changes something has done so, whatever the reply says. */
  datatype Action =
    | Begin(p: Pid, adopts: bool)
    | Step(p: Pid, reply: Reply, effect: bool)
    | Land(p: Pid)
    | LandCollection

  predicate Enabled(s: State, a: Action) {
    match a
    case Begin(p, _) => p !in s.calls
    case Step(p, _, _) => p in s.calls && !s.calls[p].phase.Done?
    case Land(p) => p in s.flying
    case LandCollection => s.building
  }

  function Next(s: State, a: Action): State
    requires Enabled(s, a)
  {
    match a
    case Begin(p, adopts) => s.(calls := s.calls[p := Call(adopts, Checking)])
    case Land(p) => s.(flying := s.flying - {p}, record := if s.record.None? then Some(p) else s.record)
    case LandCollection => s.(collection := true)
    case Step(p, reply, effect) =>
      var fails := reply != Accepted;
      match s.calls[p].phase
      case Checking =>
        GoTo(s, p, if fails then Done(Failed)
                   else if s.record.Some? then Done(Duplicate)
                   else if s.calls[p].adopts then Probing else Creating)
      case Probing => GoTo(s, p, if !fails && s.collection then Inserting else Done(Failed))
      case Creating =>
        var sent := s.(building := true, collection := s.collection || effect);
        GoTo(sent, p, if reply == Lost then Done(Failed)
                      else if reply == Accepted && effect && !s.collection then Inserting else TableCheck)
      case TableCheck => GoTo(s, p, if !fails && s.collection then RecordCheck else Done(Failed))
      case RecordCheck =>
        GoTo(s, p, if fails then Done(Failed) else if s.record.Some? then Done(Duplicate) else Done(Orphan))
      case Inserting => GoTo(s.(flying := if effect then s.flying + {p} else s.flying), p, ReadBack)
      case ReadBack =>
        GoTo(s, p, if fails then Done(Orphan)
                   else if s.record == Some(p) then Done(Created)
                   else if s.record.Some? then Done(Duplicate) else Done(Orphan))
      case Done(_) => s
  }

  function GoTo(s: State, p: Pid, phase: Phase): State
    requires p in s.calls
  {
    s.(calls := s.calls[p := s.calls[p].(phase := phase)])
  }

  predicate Legal(s: State, steps: seq<Action>)
    decreases |steps|
  {
    steps == [] || (Enabled(s, steps[0]) && Legal(Next(s, steps[0]), steps[1..]))
  }

  function After(s: State, steps: seq<Action>): State
    requires Legal(s, steps)
    decreases |steps|
  {
    if steps == [] then s else After(Next(s, steps[0]), steps[1..])
  }

  predicate Initial(s: State) {
    s.calls == map[] && s.record.None? && s.flying == {} && !s.building
  }

  ghost predicate Safe(s: State) {
    && (s.record.Some? || s.flying != {} ==> s.collection)
    && (forall p :: p in s.calls && s.calls[p].phase == Done(Created) ==> s.record == Some(p))
    && (forall p :: p in s.calls && s.calls[p].phase == Done(Duplicate) ==> s.record.Some?)
    && (forall p :: p in s.calls && s.calls[p].phase in {Inserting, ReadBack, RecordCheck, Done(Orphan)} ==>
          s.collection)
    && (forall p: Pid :: p in s.flying || s.record == Some(p) ==> p in s.calls && HasSent(s.calls[p].phase))
  }

  predicate HasSent(phase: Phase) {
    phase.ReadBack? || (phase.Done? && phase != Done(Failed))
  }

  lemma SafeStep(s: State, a: Action)
    requires Safe(s) && Enabled(s, a)
    ensures Safe(Next(s, a))
    ensures s.record.Some? ==> Next(s, a).record == s.record
  {
    if a.Step? && s.calls[a.p].phase in {Creating, Inserting} {
      SendingIsSafe(s, a.p, a.reply, a.effect);
    } else if a.Step? {
      AskingIsSafe(s, a.p, a.reply, a.effect);
    }
  }

  /** Steps that may change something. */
  lemma SendingIsSafe(s: State, p: Pid, reply: Reply, effect: bool)
    requires Safe(s) && Enabled(s, Step(p, reply, effect)) && s.calls[p].phase in {Creating, Inserting}
    ensures Safe(Next(s, Step(p, reply, effect))) && Next(s, Step(p, reply, effect)).record == s.record
  {
  }

  /** Steps that only look. */
  lemma AskingIsSafe(s: State, p: Pid, reply: Reply, effect: bool)
    requires Safe(s) && Enabled(s, Step(p, reply, effect)) && s.calls[p].phase !in {Creating, Inserting}
    ensures Safe(Next(s, Step(p, reply, effect))) && Next(s, Step(p, reply, effect)).record == s.record
  {
    var phase := Next(s, Step(p, reply, effect)).calls[p].phase;
    GoingOnIsSafe(s, p, phase);
    hide Safe;
    assert Next(s, Step(p, reply, effect)) == GoTo(s, p, phase);
  }

  /** Where a call may go on without any request that changes something. */
  lemma GoingOnIsSafe(s: State, p: Pid, phase: Phase)
    requires Safe(s) && p in s.calls
    requires phase == Done(Created) ==> s.record == Some(p)
    requires phase == Done(Duplicate) ==> s.record.Some?
    requires phase in {Inserting, ReadBack, RecordCheck, Done(Orphan)} ==> s.collection
    requires HasSent(s.calls[p].phase) ==> HasSent(phase)
    ensures Safe(GoTo(s, p, phase))
  {
  }

  lemma {:induction false} RunsSafe(s: State, steps: seq<Action>)
    requires Safe(s) && Legal(s, steps)
    ensures Safe(After(s, steps))
    ensures s.record.Some? ==> After(s, steps).record == s.record
    decreases |steps|
  {
    if steps != [] {
      SafeStep(s, steps[0]);
      RunsSafe(Next(s, steps[0]), steps[1..]);
    }
  }

  /** Even with lost replies and writes that land late: at most one call reports success, the
      stored record is its own and stays so for the rest of the run, and no record is without its
      collection. A call that reports a duplicate or an orphan is right that a record or a collection
      exists, and one that fails has stored no record and never will. */
  lemma AtMostOneCreated(start: State, steps: seq<Action>, more: seq<Action>, p: Pid, q: Pid)
    requires Initial(start) && Legal(start, steps) && Legal(After(start, steps), more)
    requires p in After(start, steps).calls
    requires q in After(After(start, steps), more).calls
    ensures var s := After(After(start, steps), more);
      && (After(start, steps).calls[p].phase == Done(Created) ==>
            (s.calls[q].phase == Done(Created) ==> q == p) && s.record == Some(p) && s.collection)
      && (s.calls[q].phase == Done(Duplicate) ==> s.record.Some?)
      && (s.calls[q].phase == Done(Orphan) ==> s.collection)
      && (s.calls[q].phase == Done(Failed) ==> s.record != Some(q) && q !in s.flying)
  {
    RunsSafe(start, steps);
    RunsSafe(After(start, steps), more);
  }

  // ---------------------------------------------------------------------------------------
  // Exactly when a call ends as it does.
  // ---------------------------------------------------------------------------------------

  /** What has to happen at a request of the call for it to end as it does. */
  predicate Shows(s: State, a: Action, p: Pid, outcome: Outcome) {
    a.Step? && a.p == p && p in s.calls &&
    var phase, answered := s.calls[p].phase, a.reply == Accepted;
    match outcome
    case Created => phase == ReadBack && answered && s.record == Some(p)
    case Duplicate =>
      || (phase in {Checking, RecordCheck} && answered && s.record.Some?)
      || (phase == ReadBack && answered && s.record.Some? && s.record != Some(p))
    case Failed =>
      || (phase in {Checking, Probing, TableCheck, RecordCheck} && !answered)
      || (phase in {Probing, TableCheck} && !s.collection)
      || (phase == Creating && a.reply == Lost)
    case Orphan =>
      || (phase == ReadBack && !answered)
      || (phase in {ReadBack, RecordCheck} && answered && s.record.None?)
  }

  ghost predicate Sometime(s: State, steps: seq<Action>, p: Pid, outcome: Outcome)
    requires Legal(s, steps)
    decreases |steps|
  {
    steps != [] && (Shows(s, steps[0], p, outcome) || Sometime(Next(s, steps[0]), steps[1..], p, outcome))
  }

  predicate EndedAs(s: State, p: Pid, outcome: Outcome) {
    p in s.calls && s.calls[p].phase == Done(outcome)
  }

  lemma {:induction false} RunsShow(s: State, steps: seq<Action>, p: Pid, outcome: Outcome)
    requires Legal(s, steps)
    ensures EndedAs(After(s, steps), p, outcome) <==> EndedAs(s, p, outcome) || Sometime(s, steps, p, outcome)
    decreases |steps|
  {
    if steps != [] {
      OneShows(s, steps[0], p, outcome);
      hide Next, Enabled, EndedAs, Shows;
      RunsShow(Next(s, steps[0]), steps[1..], p, outcome);
    }
  }

  lemma OneShows(s: State, a: Action, p: Pid, outcome: Outcome)
    requires Enabled(s, a)
    ensures EndedAs(Next(s, a), p, outcome) <==> EndedAs(s, p, outcome) || Shows(s, a, p, outcome)
  {
  }

  /** In every run, whatever is lost, refused or late, a call has reported success if and only if, at
      some step, it read its own write id back. It has reported a duplicate exactly when it saw a
      record that is not its own, a failure exactly when a question before its insert was not answered
      or found no collection, or its creation was lost, and an orphan exactly when it saw no record, or
      could not look, once there was a collection. */
  lemma OutcomeIffSeen(start: State, steps: seq<Action>, p: Pid, outcome: Outcome)
    requires Initial(start) && Legal(start, steps)
    ensures EndedAs(After(start, steps), p, outcome) <==> Sometime(start, steps, p, outcome)
  {
    RunsShow(start, steps, p, outcome);
  }

  // ---------------------------------------------------------------------------------------
  // Without faults.
  // ---------------------------------------------------------------------------------------

  /** Every request is answered and has its effect, but that a creation is refused when the collection
      is there; and a write has landed before its own read-back. */
  predicate Smooth(s: State, a: Action)
    requires Enabled(s, a)
  {
    a.Step? ==>
      var phase := s.calls[a.p].phase;
      && a.effect && (a.reply == Accepted || (a.reply == Refused && phase == Creating && s.collection))
      && (phase == ReadBack ==> a.p !in s.flying)
  }

  predicate AllSmooth(s: State, steps: seq<Action>)
    requires Legal(s, steps)
    decreases |steps|
  {
    steps == [] || (Smooth(s, steps[0]) && AllSmooth(Next(s, steps[0]), steps[1..]))
  }

  ghost predicate Faultless(s: State) {
    && (s.building ==> s.collection)
    && (s.record.Some? ==> s.record.value in s.calls && s.calls[s.record.value].phase in {ReadBack, Done(Created)})
    && (forall p :: p in s.calls && s.calls[p].phase == ReadBack ==> s.record.Some? || p in s.flying)
    && (forall p :: p in s.flying ==> p in s.calls && s.calls[p].phase == ReadBack)
    && (forall p :: p in s.calls && s.calls[p].phase == TableCheck ==> s.collection)
    && (forall p :: p in s.calls && !s.calls[p].adopts ==> s.calls[p].phase !in {Probing, Done(Failed)})
    && (forall p :: p in s.calls && s.calls[p].adopts ==> s.calls[p].phase !in {Creating, TableCheck, RecordCheck})
  }

  /** A call that is on its way to a record. */
  predicate Leads(s: State, p: Pid)
    requires p in s.calls
  {
    var c := s.calls[p];
    || c.phase == Inserting
    || (c.phase == ReadBack && p in s.flying)
    || (s.collection && c.adopts && c.phase in {Checking, Probing})
  }

  /** A record is due once a call has made the collection, or a call to adopt finds one. */
  ghost predicate Due(s: State, unmade: bool) {
    s.collection && (unmade || exists p :: p in s.calls && s.calls[p].adopts)
  }

  ghost predicate Clean(s: State, unmade: bool) {
    && Faultless(s)
    && (Due(s, unmade) ==> s.record.Some? || exists p :: p in s.calls && Leads(s, p))
    && (unmade && !s.collection ==>
          forall p :: p in s.calls && !s.calls[p].adopts ==> s.calls[p].phase in {Checking, Creating})
  }

  lemma FaultlessStep(s: State, a: Action)
    requires Safe(s) && Faultless(s) && Enabled(s, a) && Smooth(s, a)
    ensures Faultless(Next(s, a))
  {
    if a.Step? && s.calls[a.p].phase in {Creating, Inserting} {
      SendingIsFaultless(s, a);
    } else if a.Step? {
      AskingIsFaultless(s, a);
    }
  }

  lemma SendingIsFaultless(s: State, a: Action)
    requires Safe(s) && Faultless(s) && Enabled(s, a) && Smooth(s, a)
    requires a.Step? && s.calls[a.p].phase in {Creating, Inserting}
    ensures Faultless(Next(s, a))
  {
  }

  lemma AskingIsFaultless(s: State, a: Action)
    requires Safe(s) && Faultless(s) && Enabled(s, a) && Smooth(s, a)
    requires a.Step? && s.calls[a.p].phase !in {Creating, Inserting}
    ensures Faultless(Next(s, a))
  {
    var phase := Next(s, a).calls[a.p].phase;
    GoingOnIsFaultless(s, a.p, phase);
    hide Safe, Faultless, Smooth;
    assert Next(s, a) == GoTo(s, a.p, phase);
  }

  lemma GoingOnIsFaultless(s: State, p: Pid, phase: Phase)
    requires Faultless(s) && p in s.calls && p !in s.flying && phase !in {ReadBack, TableCheck}
    requires s.record == Some(p) ==> phase == Done(Created)
    requires if s.calls[p].adopts then phase !in {Creating, RecordCheck} else phase !in {Probing, Done(Failed)}
    ensures Faultless(GoTo(s, p, phase))
  {
  }

  lemma CleanStep(s: State, a: Action, unmade: bool)
    requires Safe(s) && Clean(s, unmade) && Enabled(s, a) && Smooth(s, a)
    ensures Clean(Next(s, a), unmade)
  {
    FaultlessStep(s, a);
    SomeoneLeads(s, a, unmade);
  }

  lemma SomeoneLeads(s: State, a: Action, unmade: bool)
    requires Clean(s, unmade) && Enabled(s, a) && Smooth(s, a)
    ensures var t := Next(s, a);
      Due(t, unmade) ==> t.record.Some? || exists p :: p in t.calls && Leads(t, p)
  {
    var t := Next(s, a);
    if Due(t, unmade) && t.record.None? {
      if a.Begin? {
        NewCallLeads(s, a.p, a.adopts, unmade);
      } else if Due(s, unmade) {
        var p :| p in s.calls && Leads(s, p);
        assert Leads(t, p);
      } else {
        assert Leads(t, a.p);
      }
    }
  }

  lemma NewCallLeads(s: State, p: Pid, adopts: bool, unmade: bool)
    requires Clean(s, unmade) && p !in s.calls && s.record.None?
    requires Due(Next(s, Begin(p, adopts)), unmade)
    ensures exists q :: q in Next(s, Begin(p, adopts)).calls && Leads(Next(s, Begin(p, adopts)), q)
  {
    var t := Next(s, Begin(p, adopts));
    if adopts {
      assert Leads(t, p);
    } else {
      assert Due(s, unmade) by {
        if !unmade {
          var q :| q in t.calls && t.calls[q].adopts;
          assert q in s.calls && s.calls[q].adopts;
        }
      }
      var q :| q in s.calls && Leads(s, q);
      assert Leads(t, q);
    }
  }

  lemma {:induction false} RunsClean(s: State, steps: seq<Action>, unmade: bool)
    requires Safe(s) && Clean(s, unmade) && Legal(s, steps) && AllSmooth(s, steps)
    ensures Safe(After(s, steps)) && Clean(After(s, steps), unmade)
    decreases |steps|
  {
    hide Safe, Clean, Next, Smooth;
    if steps != [] {
      SafeStep(s, steps[0]);
      CleanStep(s, steps[0], unmade);
      RunsClean(Next(s, steps[0]), steps[1..], unmade);
    }
  }

  predicate Succeeded(s: State, p: Pid) { EndedAs(s, p, Created) }

  predicate AllEnded(s: State) {
    forall p :: p in s.calls ==> s.calls[p].phase.Done?
  }

  /** A call that can succeed: one to create on a fresh name, or one to adopt a collection that was
      left without a record. */
  ghost predicate SomeCanSucceed(start: State, s: State) {
    exists p :: p in s.calls && s.calls[p].adopts == start.collection
  }

  /** Without faults, once all calls have ended: if one of them could succeed, exactly one did, and the
      collection and its record exist; otherwise none did, and there is no record. */
  lemma ExactlyOneCreated(start: State, steps: seq<Action>)
    requires Initial(start) && Legal(start, steps) && AllSmooth(start, steps) && AllEnded(After(start, steps))
    ensures var s := After(start, steps);
      && (exists p: Pid :: Succeeded(s, p)) == SomeCanSucceed(start, s) == s.record.Some?
      && (forall p: Pid :: Succeeded(s, p) ==> s.collection && s.record == Some(p))
  {
    var unmade := !start.collection;
    RunsClean(start, steps, unmade);
    var s := After(start, steps);
    if SomeCanSucceed(start, s) {
      var p :| p in s.calls && s.calls[p].adopts == start.collection;
      CollectionStays(start, steps);
      assert Due(s, unmade);
      assert forall q :: q in s.calls ==> !Leads(s, q);
      assert Succeeded(s, s.record.value);
    } else {
      NobodyCan(start, steps, start.collection);
    }
  }

  lemma {:induction false} CollectionStays(s: State, steps: seq<Action>)
    requires Legal(s, steps)
    ensures s.collection ==> After(s, steps).collection
    decreases |steps|
  {
    if steps != [] {
      CollectionStays(Next(s, steps[0]), steps[1..]);
    }
  }

  /** Without a call that could succeed the database stays as it is. */
  ghost predicate Idle(s: State, collection: bool) {
    && s.collection == collection && s.record.None? && s.flying == {}
    && forall p :: p in s.calls ==>
         s.calls[p].adopts != collection && s.calls[p].phase !in {Inserting, ReadBack, Done(Created)}
  }

  lemma {:induction false} NobodyCan(s: State, steps: seq<Action>, collection: bool)
    requires Safe(s) && Clean(s, !collection) && Legal(s, steps) && AllSmooth(s, steps)
    requires Idle(s, collection)
    requires forall p :: p in After(s, steps).calls ==> After(s, steps).calls[p].adopts != collection
    ensures Idle(After(s, steps), collection)
    decreases |steps|
  {
    hide Safe, Clean;
    if steps != [] {
      SafeStep(s, steps[0]);
      CleanStep(s, steps[0], !collection);
      var n, t := Next(s, steps[0]), After(s, steps);
      CallsStay(n, steps[1..]);
      assert forall p :: p in n.calls ==> p in t.calls && n.calls[p].adopts == t.calls[p].adopts;
      StaysIdle(s, steps[0], collection);
      hide Next;
      assert t == After(n, steps[1..]);
      NobodyCan(n, steps[1..], collection);
    }
  }

  lemma StaysIdle(s: State, a: Action, collection: bool)
    requires Safe(s) && Clean(s, !collection) && Enabled(s, a) && Smooth(s, a) && Idle(s, collection)
    requires forall p :: p in Next(s, a).calls ==> Next(s, a).calls[p].adopts != collection
    ensures Idle(Next(s, a), collection)
  {
  }

  lemma {:induction false} CallsStay(s: State, steps: seq<Action>)
    requires Legal(s, steps)
    ensures var t := After(s, steps);
      forall p :: p in s.calls ==> p in t.calls && t.calls[p].adopts == s.calls[p].adopts
    decreases |steps|
  {
    if steps != [] {
      CallsStay(Next(s, steps[0]), steps[1..]);
    }
  }

  /** What a call reports is what its last request found, in every run without faults: its own record,
      and it has succeeded; another one, and it is a duplicate; no collection, and it failed to adopt
      one; a collection without a record, and it left it alone. */
  lemma ReportsWhatItFound(start: State, steps: seq<Action>, a: Action)
    requires Initial(start) && Legal(start, steps) && AllSmooth(start, steps)
    requires a.Step? && Enabled(After(start, steps), a) && Smooth(After(start, steps), a)
    ensures var s := After(start, steps);
      var phase := Next(s, a).calls[a.p].phase;
      phase.Done? ==>
        && (phase == Done(Created) <==> s.record == Some(a.p))
        && (phase == Done(Duplicate) <==> s.record.Some? && s.record != Some(a.p))
        && (phase == Done(Failed) <==> !s.collection)
        && (phase == Done(Orphan) <==> s.collection && s.record.None?)
  {
    RunsClean(start, steps, !start.collection);
  }

  /** A call can report an orphan and still have its record stored afterwards: its insert was sent and
      takes effect late. */
  lemma StoredAfterOrphan()
    ensures var start := State(true, None, map[], {}, false);
      var asked := Step(0, Accepted, false);
      var steps := [Begin(0, true), asked, asked, Step(0, Lost, true), asked];
      && Legal(start, steps) && EndedAs(After(start, steps), 0, Orphan)
      && Legal(After(start, steps), [Land(0)])
      && After(After(start, steps), [Land(0)]).record == Some(0)
  {
    var start := State(true, None, map[], {}, false);
    var asked := Step(0, Accepted, false);
    var s1 := Next(start, Begin(0, true));
    var s2 := Next(s1, asked);
    var s3 := Next(s2, asked);
    var s4 := Next(s3, Step(0, Lost, true));
    One(s4, asked, []);
    One(s3, Step(0, Lost, true), [asked]);
    One(s2, asked, [Step(0, Lost, true), asked]);
    One(s1, asked, [asked, Step(0, Lost, true), asked]);
    One(start, Begin(0, true), [asked, asked, Step(0, Lost, true), asked]);
    One(Next(s4, asked), Land(0), []);
  }

  /** In the same way a call can report a failure and have its collection made afterwards. */
  lemma CollectionAfterFailure()
    ensures var start := State(false, None, map[], {}, false);
      var steps := [Begin(0, false), Step(0, Accepted, false), Step(0, Lost, false)];
      && Legal(start, steps) && EndedAs(After(start, steps), 0, Failed)
      && Legal(After(start, steps), [LandCollection])
      && After(After(start, steps), [LandCollection]).collection
  {
    var start := State(false, None, map[], {}, false);
    var s1 := Next(start, Begin(0, false));
    var s2 := Next(s1, Step(0, Accepted, false));
    One(s2, Step(0, Lost, false), []);
    One(s1, Step(0, Accepted, false), [Step(0, Lost, false)]);
    One(start, Begin(0, false), [Step(0, Accepted, false), Step(0, Lost, false)]);
    One(Next(s2, Step(0, Lost, false)), LandCollection, []);
  }

  lemma One(s: State, a: Action, more: seq<Action>)
    requires Enabled(s, a) && Legal(Next(s, a), more)
    ensures Legal(s, [a] + more) && After(s, [a] + more) == After(Next(s, a), more)
  {
    assert ([a] + more)[1..] == more;
  }
}
