/**
 The signal bus: a queue drained by whoever emits first, retained last values, retirement that waits
 its turn, and handlers that may emit, retire, subscribe and unsubscribe while they are called.
 */
module SignalBus {

  import opened Wrappers

  // What handlers do is given by a script: the k-th callback the bus makes performs the k-th list of
  // bus calls. Handlers of any kind, with any state, give some script in every run that ends, so a
  // theorem for all scripts is one for all handlers.

  /** `plain` is the verdict of `validatePayload`. */
  datatype Payload = Payload(text: string, plain: bool)

  datatype Signal = Signal(name: string, payload: Payload, source: string, key: string, at: int)

  datatype Entry = Emitted(signal: Signal) | Retired(source: string)

  datatype Handler = Handler(id: nat, name: Option<string>, source: Option<string>)

  datatype Op =
    | Emit(signal: Signal)
    | Retire(source: string)
    | On(named: Option<string>, from: Option<string>)
    | Off(id: nat)

  /** Per source the retained signals, the most recently emitted last. */
  type Retained = map<string, seq<Signal>>

  // ---------------------------------------------------------------------------------------
  // What is retained.
  // ---------------------------------------------------------------------------------------

  predicate InSlot(s: Signal, name: string, key: string) {
    s.name == name && s.key == key
  }

  /** `source.delete(key)` on an ordered map. */
  function WithoutSlot(list: seq<Signal>, name: string, key: string): seq<Signal> {
    if list == [] then []
    else
      var rest, s := WithoutSlot(list[..|list| - 1], name, key), list[|list| - 1];
      if InSlot(s, name, key) then rest else rest + [s]
  }

  function Of(retained: Retained, source: string): seq<Signal> {
    if source in retained then retained[source] else []
  }

  /** `source.get(key)`. */
  function InList(list: seq<Signal>, name: string, key: string): Option<Signal> {
    if list == [] then None
    else if InSlot(list[|list| - 1], name, key) then Some(list[|list| - 1])
    else InList(list[..|list| - 1], name, key)
  }

  /** What taking one entry from the queue makes of the retained signals. */
  function Kept(retained: Retained, e: Entry): Retained {
    match e
    case Retired(source) => retained - {source}
    case Emitted(s) =>
      if s.payload.plain then retained[s.source := WithoutSlot(Of(retained, s.source), s.name, s.key) + [s]]
      else retained
  }

  function Fold(h: seq<Entry>): Retained {
    if h == [] then map[] else Kept(Fold(h[..|h| - 1]), h[|h| - 1])
  }

  lemma FoldMore(h: seq<Entry>, e: Entry)
    ensures Fold(h + [e]) == Kept(Fold(h), e)
  {
    assert (h + [e])[..|h|] == h;
  }

  /** A plain signal. */
  predicate Valid(e: Entry) {
    e.Emitted? && e.signal.payload.plain
  }

  /** `later` puts an end to what `s` left behind: the same slot again, or its source retired. */
  predicate Ends(s: Signal, later: Entry) {
    match later
    case Retired(source) => source == s.source
    case Emitted(t) => t.payload.plain && t.source == s.source && InSlot(t, s.name, s.key)
  }

  /** The i-th entry is a valid signal with no later one of its slot and no later retirement. */
  predicate Live(h: seq<Entry>, i: nat) {
    i < |h| && Valid(h[i]) && forall j :: i < j < |h| ==> !Ends(h[i].signal, h[j])
  }

  lemma LiveMore(h: seq<Entry>, e: Entry, i: nat)
    ensures i < |h| ==> (Live(h + [e], i) <==> (Live(h, i) && !Ends(h[i].signal, e)))
    ensures i == |h| ==> (Live(h + [e], i) <==> Valid(e))
  {
    var g := h + [e];
    assert forall j :: 0 <= j < |h| ==> g[j] == h[j];
    assert g[|h|] == e;
  }

  /** The live signals of a source among the first `n` entries, in the order they were emitted. */
  function Alive(h: seq<Entry>, source: string, n: nat): seq<Signal>
    requires n <= |h|
  {
    if n == 0 then []
    else
      var before := Alive(h, source, n - 1);
      if Live(h, n - 1) && h[n - 1].signal.source == source then before + [h[n - 1].signal] else before
  }

  lemma {:induction false} AliveMore(h: seq<Entry>, e: Entry, source: string, n: nat)
    requires n <= |h|
    ensures Alive(h + [e], source, n) ==
            match e
            case Retired(gone) => if gone == source then [] else Alive(h, source, n)
            case Emitted(s) =>
              if s.payload.plain && s.source == source then WithoutSlot(Alive(h, source, n), s.name, s.key)
              else Alive(h, source, n)
  {
    hide Live;
    if n > 0 {
      AliveMore(h, e, source, n - 1);
      LiveMore(h, e, n - 1);
      LiveIsValid(h, n - 1);
      assert (h + [e])[n - 1] == h[n - 1];
      var before, s := Alive(h, source, n - 1), h[n - 1];
      if Live(h, n - 1) && s.signal.source == source {
        assert (before + [s.signal])[..|before|] == before;
      }
    }
  }

  lemma LiveIsValid(h: seq<Entry>, i: nat)
    ensures Live(h, i) ==> i < |h| && Valid(h[i])
  {
  }

  /** `lastAll`: of a source, exactly the live signals, in the order they were last emitted. */
  lemma {:induction false} LastAllIsAlive(h: seq<Entry>, source: string)
    ensures Of(Fold(h), source) == Alive(h, source, |h|)
  {
    hide Live;
    if h != [] {
      var before, e := h[..|h| - 1], h[|h| - 1];
      assert h == before + [e];
      LastAllIsAlive(before, source);
      FoldMore(before, e);
      AliveMore(before, e, source, |before|);
      LiveMore(before, e, |before|);
    }
  }

  lemma {:induction false} InWithout(list: seq<Signal>, name: string, key: string, n: string, k: string)
    ensures InList(WithoutSlot(list, name, key), n, k) == if n == name && k == key then None else InList(list, n, k)
  {
    if list != [] {
      var before, s := list[..|list| - 1], list[|list| - 1];
      InWithout(before, name, key, n, k);
      var rest := WithoutSlot(before, name, key);
      assert (rest + [s])[..|rest|] == rest;
    }
  }

  /** `last`: a signal is retained for a slot exactly when it is the last valid one emitted there
      and its source was not retired since. */
  lemma {:induction false} LastIsLive(h: seq<Entry>, name: string, source: string, key: string, s: Signal)
    ensures InList(Of(Fold(h), source), name, key) == Some(s) <==>
            (s.source == source && InSlot(s, name, key) &&
             exists i: nat :: Live(h, i) && h[i].signal == s)
  {
    hide Live;
    if h == [] {
      assert forall i: nat :: !Live(h, i) by { forall i: nat ensures !Live(h, i) { LiveIsValid(h, i); } }
    } else {
      var before, e := h[..|h| - 1], h[|h| - 1];
      assert h == before + [e];
      LastIsLive(before, name, source, key, s);
      FoldMore(before, e);
      ExistsMore(before, e, s);
      if Valid(e) && e.signal.source == source {
        var list := Of(Fold(before), source);
        var rest := WithoutSlot(list, e.signal.name, e.signal.key);
        InWithout(list, e.signal.name, e.signal.key, name, key);
        assert (rest + [e.signal])[..|rest|] == rest;
      }
    }
  }

  lemma ExistsMore(h: seq<Entry>, e: Entry, s: Signal)
    ensures (exists i: nat :: Live(h + [e], i) && (h + [e])[i].signal == s) <==>
            ((Valid(e) && e.signal == s) || (!Ends(s, e) && exists i: nat :: Live(h, i) && h[i].signal == s))
  {
    hide Live;
    var g := h + [e];
    forall i: nat
      ensures Live(h, i) ==> i < |h| && Valid(h[i]) && g[i] == h[i]
      ensures Live(g, i) ==> i < |g| && Valid(g[i])
    {
      LiveIsValid(h, i);
      LiveIsValid(g, i);
    }
    if i: nat :| Live(g, i) && g[i].signal == s {
      LiveMore(h, e, i);
    }
    if i: nat :| Live(h, i) && h[i].signal == s && !Ends(s, e) {
      LiveMore(h, e, i);
      assert Live(g, i) && g[i].signal == s;
    }
    if Valid(e) && e.signal == s {
      LiveMore(h, e, |h|);
      assert Live(g, |h|) && g[|h|].signal == s;
    }
  }

  /** Right after a valid signal was taken, it is what `last` gives for its slot. */
  lemma JustTakenIsLast(h: seq<Entry>, e: Entry)
    requires Valid(e)
    ensures InList(Of(Fold(h + [e]), e.signal.source), e.signal.name, e.signal.key) == Some(e.signal)
  {
    FoldMore(h, e);
  }

  // ---------------------------------------------------------------------------------------
  // Who hears what.
  // ---------------------------------------------------------------------------------------

  /** One call of a handler: the entry delivered, and what was retained at that moment. */
  datatype Delivery = Delivery(id: nat, index: nat, kept: Retained)

  /** A handler was subscribed when `since` entries had been taken and was offered those up to `upto`. */
  datatype Offer = Offer(handler: Handler, since: nat, upto: nat)

  predicate Hears(h: Handler, s: Signal) {
    && (h.name.Some? ==> h.name.value == s.name)
    && (h.source.Some? ==> h.source.value == s.source)
  }

  /** The entries a handler is to be called for. */
  function Matching(log: seq<Entry>, h: Handler, from: nat, to: nat): seq<nat>
    requires to <= |log|
  {
    if to <= from then []
    else
      var before := Matching(log, h, from, to - 1);
      if Valid(log[to - 1]) && Hears(h, log[to - 1].signal) then before + [to - 1] else before
  }

  /** The entries a handler was called for, in the order of the calls. */
  function Seen(deliveries: seq<Delivery>, id: nat): seq<nat> {
    if deliveries == [] then []
    else
      var before, d := Seen(deliveries[..|deliveries| - 1], id), deliveries[|deliveries| - 1];
      if d.id == id then before + [d.index] else before
  }

  lemma SeenMore(deliveries: seq<Delivery>, d: Delivery, id: nat)
    ensures Seen(deliveries + [d], id) == if d.id == id then Seen(deliveries, id) + [d.index] else Seen(deliveries, id)
  {
    assert (deliveries + [d])[..|deliveries|] == deliveries;
  }

  lemma {:induction false} SeenNone(deliveries: seq<Delivery>, id: nat)
    requires forall d :: d in deliveries ==> d.id != id
    ensures Seen(deliveries, id) == []
  {
    if deliveries != [] {
      assert deliveries[|deliveries| - 1] in deliveries;
      SeenNone(deliveries[..|deliveries| - 1], id);
    }
  }

  lemma {:induction false} MatchingStays(log: seq<Entry>, longer: seq<Entry>, h: Handler, from: nat, to: nat)
    requires log <= longer && to <= |log|
    ensures Matching(longer, h, from, to) == Matching(log, h, from, to)
  {
    if to > from { MatchingStays(log, longer, h, from, to - 1); }
  }

  /** The indices a handler is called for come in the order the signals were emitted. */
  lemma {:induction false} MatchingAscends(log: seq<Entry>, h: Handler, from: nat, to: nat)
    requires to <= |log|
    ensures var m := Matching(log, h, from, to);
      && (forall i :: 0 <= i < |m| ==> from <= m[i] < to)
      && (forall i, j :: 0 <= i < j < |m| ==> m[i] < m[j])
      && (forall k :: from <= k < to ==> (k in m <==> Valid(log[k]) && Hears(h, log[k].signal)))
  {
    if to > from {
      MatchingAscends(log, h, from, to - 1);
      var before := Matching(log, h, from, to - 1);
      forall k | from <= k < to
        ensures k in Matching(log, h, from, to) <==> Valid(log[k]) && Hears(h, log[k].signal)
      {
        assert k in before + [to - 1] <==> k in before || k == to - 1;
      }
    }
  }

  // ---------------------------------------------------------------------------------------
  // The state of a bus.
  // ---------------------------------------------------------------------------------------

  /** What calls made from inside a handler can change. */
  datatype Room = Room(log: seq<Entry>, handlers: seq<Handler>, offers: map<nat, Offer>, nextId: nat)

  ghost predicate Distinct(handlers: seq<Handler>) {
    forall i, j :: 0 <= i < j < |handlers| ==> handlers[i].id != handlers[j].id
  }

  /** Ids are given out once, and a subscribed handler is the one its id was given to. */
  ghost predicate Registered(r: Room) {
    && (forall id: nat :: id in r.offers <==> id < r.nextId)
    && (forall i :: 0 <= i < |r.handlers| ==>
          r.handlers[i].id in r.offers && r.offers[r.handlers[i].id].handler == r.handlers[i])
    && Distinct(r.handlers)
  }

  /** Every call was for a valid signal, with what was retained being the fold up to that signal, and
      no call for a signal came after one for a later signal. */
  ghost predicate Delivered(r: Room, taken: nat, deliveries: seq<Delivery>)
    requires taken <= |r.log|
  {
    && (forall d :: d in deliveries ==>
          && d.id in r.offers && d.index < taken && Valid(r.log[d.index])
          && d.kept == Fold(r.log[..d.index + 1]))
    && (forall i, j :: 0 <= i < j < |deliveries| ==> deliveries[i].index <= deliveries[j].index)
  }

  ghost predicate HeardOne(log: seq<Entry>, taken: nat, deliveries: seq<Delivery>, id: nat, o: Offer)
    requires taken <= |log|
  {
    && o.handler.id == id && o.since <= o.upto <= taken
    && Seen(deliveries, id) == Matching(log, o.handler, o.since, o.upto)
  }

  ghost predicate Heard(r: Room, taken: nat, deliveries: seq<Delivery>)
    requires taken <= |r.log|
  {
    forall id: nat :: id in r.offers ==> HeardOne(r.log, taken, deliveries, id, r.offers[id])
  }

  ghost predicate Sound(r: Room, taken: nat, deliveries: seq<Delivery>) {
    && taken <= |r.log|
    && Registered(r)
    && Delivered(r, taken, deliveries)
    && Heard(r, taken, deliveries)
  }

  /** Every subscribed handler was offered everything up to `upto`. */
  ghost predicate UpTo(r: Room, upto: nat) {
    forall i :: 0 <= i < |r.handlers| ==>
      r.handlers[i].id in r.offers && r.offers[r.handlers[i].id].upto == upto
  }

  /** Between `a` and `b` only calls of the bus were made from inside a handler. */
  ghost predicate Grows(a: Room, b: Room, taken: nat) {
    && a.log <= b.log && a.nextId <= b.nextId
    && (forall id: nat :: id in a.offers ==> id in b.offers && b.offers[id] == a.offers[id])
    && (forall id: nat :: id in b.offers && id !in a.offers ==> b.offers[id].since == b.offers[id].upto == taken)
    && (forall h :: h in b.handlers ==> h in a.handlers || h.id !in a.offers)
  }

  lemma GrowsOn(a: Room, b: Room, c: Room, taken: nat)
    requires Grows(a, b, taken) && Grows(b, c, taken)
    ensures Grows(a, c, taken)
  {
  }

  function Pushed(r: Room, e: Entry): Room {
    r.(log := r.log + [e])
  }

  function Subscribed(r: Room, name: Option<string>, source: Option<string>, taken: nat): Room {
    var h := Handler(r.nextId, name, source);
    r.(handlers := r.handlers + [h], offers := r.offers[r.nextId := Offer(h, taken, taken)], nextId := r.nextId + 1)
  }

  function WithoutHandler(handlers: seq<Handler>, id: nat): (r: seq<Handler>)
    ensures forall h :: h in r <==> h in handlers && h.id != id
  {
    if handlers == [] then []
    else
      var rest, h := WithoutHandler(handlers[..|handlers| - 1], id), handlers[|handlers| - 1];
      assert forall x :: x in handlers <==> x in handlers[..|handlers| - 1] || x == h;
      if h.id == id then rest else rest + [h]
  }

  lemma {:induction false} WithoutHandlerDistinct(handlers: seq<Handler>, id: nat)
    requires Distinct(handlers)
    ensures Distinct(WithoutHandler(handlers, id))
  {
    if handlers != [] {
      var before, h := handlers[..|handlers| - 1], handlers[|handlers| - 1];
      WithoutHandlerDistinct(before, id);
      var rest := WithoutHandler(before, id);
      forall i | 0 <= i < |rest|
        ensures rest[i].id != h.id
      {
        assert rest[i] in before;
        var k :| 0 <= k < |before| && before[k] == rest[i];
        assert handlers[k].id != handlers[|handlers| - 1].id;
      }
    }
  }

  function Unsubscribed(r: Room, id: nat): Room {
    r.(handlers := WithoutHandler(r.handlers, id))
  }

  lemma PushedSound(r: Room, e: Entry, taken: nat, deliveries: seq<Delivery>)
    requires Sound(r, taken, deliveries)
    ensures Sound(Pushed(r, e), taken, deliveries) && Grows(r, Pushed(r, e), taken)
  {
    var p := Pushed(r, e);
    forall id: nat | id in r.offers
      ensures HeardOne(p.log, taken, deliveries, id, p.offers[id])
    {
      MatchingStays(r.log, p.log, r.offers[id].handler, r.offers[id].since, r.offers[id].upto);
    }
    forall d | d in deliveries
      ensures d.kept == Fold(p.log[..d.index + 1])
    {
      assert p.log[..d.index + 1] == r.log[..d.index + 1];
    }
  }

  lemma SubscribedSound(r: Room, name: Option<string>, source: Option<string>, taken: nat, deliveries: seq<Delivery>)
    requires Sound(r, taken, deliveries)
    ensures Sound(Subscribed(r, name, source, taken), taken, deliveries)
    ensures Grows(r, Subscribed(r, name, source, taken), taken)
  {
    SeenNone(deliveries, r.nextId);
  }

  lemma UnsubscribedSound(r: Room, id: nat, taken: nat, deliveries: seq<Delivery>)
    requires Sound(r, taken, deliveries)
    ensures Sound(Unsubscribed(r, id), taken, deliveries) && Grows(r, Unsubscribed(r, id), taken)
  {
    WithoutHandlerDistinct(r.handlers, id);
    var u := Unsubscribed(r, id);
    forall i | 0 <= i < |u.handlers|
      ensures u.handlers[i].id in u.offers && u.offers[u.handlers[i].id].handler == u.handlers[i]
    {
      assert u.handlers[i] in r.handlers;
    }
  }

  /** An entry no handler is called for is taken: everyone subscribed was offered it. */
  function PassedOver(r: Room, taken: nat): Room {
    r.(offers := map id | id in r.offers ::
         if r.offers[id].handler in r.handlers then r.offers[id].(upto := taken) else r.offers[id])
  }

  lemma PassedOverSound(r: Room, taken: nat, deliveries: seq<Delivery>)
    requires Sound(r, taken, deliveries) && UpTo(r, taken) && taken < |r.log| && !Valid(r.log[taken])
    ensures Sound(PassedOver(r, taken + 1), taken + 1, deliveries) && UpTo(PassedOver(r, taken + 1), taken + 1)
  {
  }

  /** A handler has had its turn. */
  function Turned(r: Room, h: Handler, taken: nat): Room
    requires h.id in r.offers
  {
    r.(offers := r.offers[h.id := r.offers[h.id].(upto := taken)])
  }

  lemma TakenSound(r: Room, taken: nat, deliveries: seq<Delivery>)
    requires Sound(r, taken, deliveries) && taken < |r.log|
    ensures Sound(r, taken + 1, deliveries)
  {
  }

  /** A handler's turn when it is not to be called for the signal. */
  lemma TurnedSilent(r: Room, h: Handler, taken: nat, deliveries: seq<Delivery>)
    requires Sound(r, taken, deliveries) && h in r.handlers && taken > 0
    requires h.id in r.offers && r.offers[h.id].upto == taken - 1
    requires !(Valid(r.log[taken - 1]) && Hears(h, r.log[taken - 1].signal))
    ensures Sound(Turned(r, h, taken), taken, deliveries)
  {
  }

  /** A handler's turn when it is. */
  lemma TurnedCalled(r: Room, h: Handler, taken: nat, deliveries: seq<Delivery>, d: Delivery)
    requires Sound(r, taken, deliveries) && h in r.handlers && taken > 0
    requires h.id in r.offers && r.offers[h.id].upto == taken - 1
    requires Valid(r.log[taken - 1]) && Hears(h, r.log[taken - 1].signal)
    requires d == Delivery(h.id, taken - 1, Fold(r.log[..taken]))
    ensures Sound(Turned(r, h, taken), taken, deliveries + [d])
  {
    hide Fold, Delivered, HeardOne;
    DeliveredMore(r, taken, deliveries, d, Turned(r, h, taken));
    var t := Turned(r, h, taken);
    forall id: nat | id in t.offers
      ensures HeardOne(t.log, taken, deliveries + [d], id, t.offers[id])
    {
      assert HeardOne(r.log, taken, deliveries, id, r.offers[id]);
      if id == h.id {
        HeardMore(r.log, taken, deliveries, r.offers[id], d);
      } else {
        HeardOther(r.log, taken, deliveries, id, r.offers[id], d);
      }
    }
  }

  lemma HeardMore(log: seq<Entry>, taken: nat, deliveries: seq<Delivery>, o: Offer, d: Delivery)
    requires 0 < taken <= |log| && HeardOne(log, taken, deliveries, o.handler.id, o) && o.upto == taken - 1
    requires Valid(log[taken - 1]) && Hears(o.handler, log[taken - 1].signal)
    requires d.id == o.handler.id && d.index == taken - 1
    ensures HeardOne(log, taken, deliveries + [d], o.handler.id, o.(upto := taken))
  {
    SeenMore(deliveries, d, d.id);
  }

  lemma HeardOther(log: seq<Entry>, taken: nat, deliveries: seq<Delivery>, id: nat, o: Offer, d: Delivery)
    requires taken <= |log| && HeardOne(log, taken, deliveries, id, o) && d.id != id
    ensures HeardOne(log, taken, deliveries + [d], id, o)
  {
    SeenMore(deliveries, d, id);
  }

  lemma DeliveredMore(r: Room, taken: nat, deliveries: seq<Delivery>, d: Delivery, t: Room)
    requires 0 < taken <= |r.log| && Delivered(r, taken, deliveries) && t.log == r.log
    requires d.id in r.offers && forall id: nat :: id in r.offers ==> id in t.offers
    requires Valid(r.log[taken - 1]) && d.index == taken - 1 && d.kept == Fold(r.log[..taken])
    ensures Delivered(t, taken, deliveries + [d])
  {
    hide Fold, Valid;
    forall x | x in deliveries + [d]
      ensures x in deliveries || x == d
    {
    }
    forall i | 0 <= i < |deliveries|
      ensures deliveries[i].index <= d.index
    {
      assert deliveries[i] in deliveries;
    }
  }

  lemma GrowsUpTo(a: Room, b: Room, taken: nat)
    requires Grows(a, b, taken) && UpTo(a, taken) && Registered(a) && Registered(b)
    ensures UpTo(b, taken)
  {
    forall i | 0 <= i < |b.handlers|
      ensures b.offers[b.handlers[i].id].upto == taken
    {
      assert b.handlers[i] in b.handlers;
    }
  }

  /** How far the handlers of a snapshot have had their turn with the entry before `taken`. */
  ghost predicate Halfway(snapshot: seq<Handler>, turns: nat, r: Room, taken: nat) {
    && (forall i :: 0 <= i < |snapshot| ==> snapshot[i].id in r.offers)
    && (forall i :: 0 <= i < |snapshot| && snapshot[i] in r.handlers ==>
          r.offers[snapshot[i].id].upto == if i < turns then taken else taken - 1)
    && (forall h :: h in r.handlers ==> h in snapshot || (h.id in r.offers && r.offers[h.id].upto == taken))
  }

  lemma HalfwayStart(r: Room, taken: nat)
    requires Registered(r) && taken > 0 && UpTo(r, taken - 1)
    ensures Halfway(r.handlers, 0, r, taken)
  {
  }

  lemma HalfwayTurned(snapshot: seq<Handler>, turns: nat, r: Room, taken: nat)
    requires Distinct(snapshot) && turns < |snapshot| && Halfway(snapshot, turns, r, taken)
    requires snapshot[turns] in r.handlers
    ensures Halfway(snapshot, turns + 1, Turned(r, snapshot[turns], taken), taken)
  {
  }

  lemma HalfwayGrows(snapshot: seq<Handler>, turns: nat, a: Room, b: Room, taken: nat)
    requires Halfway(snapshot, turns, a, taken) && Grows(a, b, taken) && Registered(b)
    ensures Halfway(snapshot, turns, b, taken)
  {
    forall h | h in b.handlers
      ensures h in snapshot || (h.id in b.offers && b.offers[h.id].upto == taken)
    {
      var i :| 0 <= i < |b.handlers| && b.handlers[i] == h;
    }
  }

  lemma HalfwayEnd(snapshot: seq<Handler>, r: Room, taken: nat)
    requires Registered(r) && Halfway(snapshot, |snapshot|, r, taken)
    ensures UpTo(r, taken)
  {
    forall i | 0 <= i < |r.handlers|
      ensures r.offers[r.handlers[i].id].upto == taken
    {
      assert r.handlers[i] in r.handlers;
      if r.handlers[i] in snapshot {
        var j :| 0 <= j < |snapshot| && snapshot[j] == r.handlers[i];
      }
    }
  }

  lemma HalfwayAt(snapshot: seq<Handler>, turns: nat, r: Room, taken: nat)
    requires taken > 0 && turns < |snapshot| && Halfway(snapshot, turns, r, taken) && snapshot[turns] in r.handlers
    ensures snapshot[turns].id in r.offers && r.offers[snapshot[turns].id].upto == taken - 1
  {
  }

  lemma HalfwayGone(snapshot: seq<Handler>, turns: nat, r: Room, taken: nat)
    requires turns < |snapshot| && Halfway(snapshot, turns, r, taken) && snapshot[turns] !in r.handlers
    ensures Halfway(snapshot, turns + 1, r, taken)
  {
  }

  lemma SoundHas(r: Room, taken: nat, deliveries: seq<Delivery>)
    requires Sound(r, taken, deliveries)
    ensures taken <= |r.log| && Registered(r) && Distinct(r.handlers)
  {
  }

  lemma GrowsNot(r: Room, taken: nat)
    ensures Grows(r, r, taken)
  {
  }

  lemma GrowsLog(a: Room, b: Room, taken: nat)
    requires Grows(a, b, taken)
    ensures a.log <= b.log
  {
  }

  lemma UpToPushed(r: Room, e: Entry, upto: nat)
    ensures UpTo(Pushed(r, e), upto) <==> UpTo(r, upto)
  {
  }

  class SignalBus {
    const script: seq<seq<Op>>
    var calls: nat
    var queue: seq<Entry>
    var retained: Retained
    var handlers: seq<Handler>
    var nextId: nat
    var draining: bool
    ghost var log: seq<Entry>
    ghost var taken: nat
    ghost var deliveries: seq<Delivery>
    ghost var offers: map<nat, Offer>

    constructor (script: seq<seq<Op>>)
      ensures Idle() && log == [] && deliveries == [] && handlers == []
    {
      this.script := script;
      calls, queue, retained, handlers, nextId, draining := 0, [], map[], [], 0, false;
      log, taken, deliveries, offers := [], 0, [], map[];
    }

    ghost function Around(): Room
      reads this
    {
      Room(log, handlers, offers, nextId)
    }

    /** Holds whenever a handler or a caller can look. */
    ghost predicate Steady()
      reads this
    {
      && Sound(Around(), taken, deliveries)
      && queue == log[taken..]
      && retained == Fold(log[..taken])
    }

    /** Nobody is draining: everything emitted was taken, and every handler had its turn with it. */
    ghost predicate Idle()
      reads this
    {
      !draining && Steady() && queue == [] && UpTo(Around(), taken)
    }

    ghost predicate Usable()
      reads this
    {
      Steady() && (draining || Idle())
    }

    /** How many callbacks can still do something. */
    ghost function Left(): nat
      reads this
    {
      if calls < |script| then |script| - calls else 0
    }

    /** `emit` and `retire`: the entry joins the queue; whoever finds nobody draining drains. */
    method Push(e: Entry)
      requires Usable()
      modifies this
      ensures Usable() && draining == old(draining)
      ensures old(draining) ==>
        && Around() == Pushed(old(Around()), e) && Grows(old(Around()), Around(), taken)
        && taken == old(taken) && deliveries == old(deliveries) && retained == old(retained) && calls == old(calls)
      ensures old(log) + [e] <= log && old(deliveries) <= deliveries
      decreases if draining then 0 else 1, 2
    {
      hide Sound, UpTo, Fold, Grows;
      SoundHas(Around(), taken, deliveries);
      PushedSound(Around(), e, taken, deliveries);
      queue := queue + [e];
      log := log + [e];
      assert log[..taken] == old(log)[..taken];
      assert queue == log[taken..];
      UpToPushed(old(Around()), e, taken);
      Drain();
    }

    /** Takes entries until none is left, also those that handlers add meanwhile. */
    method Drain()
      requires Steady() && (!draining ==> UpTo(Around(), taken))
      modifies this
      ensures Usable() && draining == old(draining)
      ensures old(draining) ==>
        && Around() == old(Around()) && queue == old(queue)
        && taken == old(taken) && deliveries == old(deliveries) && retained == old(retained) && calls == old(calls)
      ensures old(log) <= log && old(deliveries) <= deliveries
      decreases if draining then 0 else 1, 1
    {
      hide Sound, UpTo, Fold;
      if draining {
        return;
      }
      draining := true;
      while queue != []
        invariant draining && Steady() && UpTo(Around(), taken)
        invariant old(log) <= log && old(deliveries) <= deliveries
        decreases Left(), |queue|
      {
        Take();
      }
      draining := false;
    }

    /** The next entry: a retirement, a signal that is not plain, or one to retain and deliver. */
    method Take()
      requires draining && Steady() && UpTo(Around(), taken) && queue != []
      modifies this
      ensures draining && Steady() && UpTo(Around(), taken) && taken == old(taken) + 1
      ensures old(log) <= log && old(deliveries) <= deliveries
      ensures Left() < old(Left()) || (Left() == old(Left()) && |queue| < old(|queue|))
      decreases 0, 6
    {
      hide Sound, UpTo, Fold, Registered, Grows;
      var entry := queue[0];
      queue := queue[1..];
      SoundHas(Around(), taken, deliveries);
      assert entry == log[taken];
      assert log[..taken + 1] == log[..taken] + [entry];
      FoldMore(log[..taken], entry);
      if Valid(entry) {
        TakenSound(Around(), taken, deliveries);
        taken := taken + 1;
        var signal := entry.signal;
        var list := if signal.source in retained then retained[signal.source] else [];
        retained := retained[signal.source := WithoutSlot(list, signal.name, signal.key) + [signal]];
        Deliver(signal);
      } else {
        PassedOverSound(Around(), taken, deliveries);
        offers := PassedOver(Around(), taken + 1).offers;
        taken := taken + 1;
        if entry.Retired? {
          retained := retained - {entry.source};
        } else {
          ghost var before := Around();
          Callback();
          SoundHas(before, taken, deliveries);
          SoundHas(Around(), taken, deliveries);
          GrowsUpTo(before, Around(), taken);
          GrowsLog(before, Around(), taken);
        }
      }
    }

    /** Each handler subscribed now gets its turn, unless it is unsubscribed before that. */
    method Deliver(signal: Signal)
      requires draining && Steady() && taken > 0 && UpTo(Around(), taken - 1)
      requires log[taken - 1] == Emitted(signal) && signal.payload.plain
      modifies this
      ensures draining && Steady() && UpTo(Around(), taken) && taken == old(taken)
      ensures old(log) <= log && old(deliveries) <= deliveries
      ensures Left() < old(Left()) || (Left() == old(Left()) && queue == old(queue))
      decreases 0, 5
    {
      hide Sound, UpTo, Fold, Registered, Grows, Halfway, Distinct;
      SoundHas(Around(), taken, deliveries);
      HalfwayStart(Around(), taken);
      var snapshot := handlers;
      for i := 0 to |snapshot|
        invariant draining && Steady() && taken == old(taken)
        invariant old(log) <= log && old(deliveries) <= deliveries
        invariant Halfway(snapshot, i, Around(), taken) && Distinct(snapshot)
        invariant Left() < old(Left()) || (Left() == old(Left()) && queue == old(queue))
      {
        var handler := snapshot[i];
        if handler in handlers {
          Turn(handler, signal, snapshot, i);
        } else {
          HalfwayGone(snapshot, i, Around(), taken);
        }
      }
      SoundHas(Around(), taken, deliveries);
      HalfwayEnd(snapshot, Around(), taken);
    }

    /** The turn of one handler that is still subscribed. */
    method Turn(handler: Handler, signal: Signal, ghost snapshot: seq<Handler>, ghost i: nat)
      requires draining && Steady() && taken > 0 && i < |snapshot|
      requires snapshot[i] == handler && handler in handlers
      requires log[taken - 1] == Emitted(signal) && signal.payload.plain
      requires Halfway(snapshot, i, Around(), taken) && Distinct(snapshot)
      modifies this
      ensures draining && Steady() && taken == old(taken)
      ensures old(log) <= log && old(deliveries) <= deliveries
      ensures Halfway(snapshot, i + 1, Around(), taken)
      ensures Left() < old(Left()) || (Left() == old(Left()) && queue == old(queue))
      decreases 0, 5, 0
    {
      hide Sound, UpTo, Fold, Registered, Grows, Halfway, Distinct;
      HalfwayAt(snapshot, i, Around(), taken);
      HalfwayTurned(snapshot, i, Around(), taken);
      if (handler.name.Some? && handler.name.value != signal.name) ||
         (handler.source.Some? && handler.source.value != signal.source) {
        TurnedSilent(Around(), handler, taken, deliveries);
        offers := Turned(Around(), handler, taken).offers;
      } else {
        ghost var d := Delivery(handler.id, taken - 1, retained);
        TurnedCalled(Around(), handler, taken, deliveries, d);
        offers := Turned(Around(), handler, taken).offers;
        deliveries := deliveries + [d];
        ghost var before := Around();
        Callback();
        SoundHas(Around(), taken, deliveries);
        HalfwayGrows(snapshot, i + 1, before, Around(), taken);
        GrowsLog(before, Around(), taken);
      }
    }

    /** A callback makes the calls of the bus that the script has for it. */
    method Callback()
      requires draining && Steady()
      modifies this
      ensures draining && Steady() && Grows(old(Around()), Around(), taken)
      ensures taken == old(taken) && deliveries == old(deliveries) && retained == old(retained)
      ensures Left() < old(Left()) || (Left() == old(Left()) && queue == old(queue))
      decreases 0, 4
    {
      hide Sound, UpTo, Fold, Registered, Grows;
      var ops := if calls < |script| then script[calls] else [];
      calls := calls + 1;
      GrowsNot(Around(), taken);
      for k := 0 to |ops|
        invariant draining && Steady() && Grows(old(Around()), Around(), taken)
        invariant taken == old(taken) && deliveries == old(deliveries) && retained == old(retained)
        invariant calls == old(calls) + 1 && (ops == [] ==> queue == old(queue))
      {
        ghost var before := Around();
        Perform(ops[k]);
        GrowsOn(old(Around()), before, Around(), taken);
      }
    }

    /** One call of the bus from inside a handler. */
    method Perform(op: Op)
      requires draining && Steady()
      modifies this
      ensures draining && Steady() && Grows(old(Around()), Around(), taken)
      ensures taken == old(taken) && deliveries == old(deliveries) && retained == old(retained) && calls == old(calls)
      decreases 0, 3
    {
      hide Sound, UpTo, Fold, Registered, Grows;
      match op {
        case Emit(signal) => Push(Emitted(signal));
        case Retire(source) => Push(Retired(source));
        case On(named, from) => var id := Subscribe(named, from);
        case Off(id) => Unsubscribe(id);
      }
    }

    /** `on` and `onAny`: what is emitted from now on is for the new handler too, what was taken is not. */
    method Subscribe(name: Option<string>, source: Option<string>) returns (id: nat)
      requires Usable()
      modifies `handlers, `offers, `nextId
      ensures Usable() && id == old(nextId)
      ensures Around() == Subscribed(old(Around()), name, source, taken)
      ensures var h := Handler(id, name, source);
        handlers == old(handlers) + [h] && offers == old(offers)[id := Offer(h, taken, taken)]
      ensures Grows(old(Around()), Around(), taken)
    {
      hide Sound, UpTo, Fold, Registered, Grows;
      SubscribedSound(Around(), name, source, taken, deliveries);
      id := nextId;
      var handler := Handler(id, name, source);
      handlers := handlers + [handler];
      offers := offers[id := Offer(handler, taken, taken)];
      nextId := nextId + 1;
      SoundHas(old(Around()), taken, deliveries);
      SoundHas(Around(), taken, deliveries);
      if !draining {
        GrowsUpTo(old(Around()), Around(), taken);
      }
    }

    /** The function `on` returns: the handler is called no more, not even for the signal in delivery. */
    method Unsubscribe(id: nat)
      requires Usable()
      modifies `handlers
      ensures Usable() && Around() == Unsubscribed(old(Around()), id)
      ensures forall h :: h in handlers <==> h in old(handlers) && h.id != id
      ensures Grows(old(Around()), Around(), taken)
    {
      hide Sound, UpTo, Fold, Registered, Grows;
      UnsubscribedSound(Around(), id, taken, deliveries);
      handlers := WithoutHandler(handlers, id);
      SoundHas(old(Around()), taken, deliveries);
      SoundHas(Around(), taken, deliveries);
      if !draining {
        GrowsUpTo(old(Around()), Around(), taken);
      }
    }

    /** `last`: what the fold of the entries taken so far retains for the slot. */
    method Last(name: string, source: string, key: string) returns (s: Option<Signal>)
      requires Usable()
      ensures s == InList(Of(Fold(log[..taken]), source), name, key)
    {
      s := if source in retained then InList(retained[source], name, key) else None;
    }

    method LastAll(source: string) returns (list: seq<Signal>)
      requires Usable()
      ensures list == Alive(log[..taken], source, taken)
    {
      LastAllIsAlive(log[..taken], source);
      list := if source in retained then retained[source] else [];
    }
  }

  /** With nobody draining, each subscribed handler was called exactly for the valid signals it asked
      for since it subscribed, in the order they were emitted. */
  lemma EachHearsAllInOrder(r: Room, deliveries: seq<Delivery>, h: Handler)
    requires Sound(r, |r.log|, deliveries) && UpTo(r, |r.log|) && h in r.handlers
    ensures h.id in r.offers
    ensures var seen, since := Seen(deliveries, h.id), r.offers[h.id].since;
      && (forall i, j :: 0 <= i < j < |seen| ==> seen[i] < seen[j])
      && (forall k :: k in seen <==>
            && since <= k < |r.log| && r.log[k].Emitted? && r.log[k].signal.payload.plain
            && h.name in {None, Some(r.log[k].signal.name)} && h.source in {None, Some(r.log[k].signal.source)})
  {
    hide Seen, Matching;
    var i :| 0 <= i < |r.handlers| && r.handlers[i] == h;
    var o := r.offers[h.id];
    assert HeardOne(r.log, |r.log|, deliveries, h.id, o);
    MatchingAscends(r.log, h, o.since, |r.log|);
    var seen := Seen(deliveries, h.id);
    assert seen == Matching(r.log, h, o.since, |r.log|);
    forall k | k in seen
      ensures o.since <= k < |r.log|
    {
      var m :| 0 <= m < |seen| && seen[m] == k;
    }
  }

  /** While a signal is delivered, `last` gives that very signal for its slot, whatever the handlers
      called before did. */
  lemma LastDuringDelivery(r: Room, taken: nat, deliveries: seq<Delivery>, d: Delivery)
    requires Sound(r, taken, deliveries) && d in deliveries
    ensures d.index < |r.log| && Valid(r.log[d.index])
    ensures var s := r.log[d.index].signal; InList(Of(d.kept, s.source), s.name, s.key) == Some(s)
  {
    assert r.log[..d.index + 1] == r.log[..d.index] + [r.log[d.index]];
    JustTakenIsLast(r.log[..d.index], r.log[d.index]);
  }
}
