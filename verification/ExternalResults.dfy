/**
 Results of external tools, taken out of a request's history: what directly follows a turn that
 declares external calls answers them, and all external turns are dropped from the history.
 */
module ExternalResults {

  import opened Wrappers

  datatype Role = System | User | Assistant | Tool

  /** `calls` are the ids of the declared calls, `callId` is the id a tool message answers. */
  datatype Message = Message(role: Role, content: Option<string>, calls: seq<string>, callId: Option<string>)

  const EXT_PREFIX := "ext:"

  predicate IsExternalId(id: string) {
    EXT_PREFIX <= id
  }

  predicate Declares(m: Message) {
    m.role.Assistant? && exists i :: 0 <= i < |m.calls| && IsExternalId(m.calls[i])
  }

  /** A tool message with one of the external ids a turn declares. */
  predicate Answers(turn: Message, m: Message) {
    m.role.Tool? && m.callId.Some? && m.callId.value in turn.calls && IsExternalId(m.callId.value)
  }

  /** Dropped: turns that declare external calls, and every tool message with an external id. */
  predicate Drops(m: Message) {
    Declares(m) || (m.role.Tool? && m.callId.Some? && IsExternalId(m.callId.value))
  }

  function Text(m: Message): string {
    if m.content.Some? then m.content.value else ""
  }

  /** The k-th message is in the unbroken run of answers directly after the declaring turn `i`. */
  ghost predicate Run(h: seq<Message>, i: nat, k: nat) {
    i < k < |h| && Declares(h[i]) && forall l :: i < l <= k ==> Answers(h[i], h[l])
  }

  ghost predicate Consumed(h: seq<Message>, k: nat) {
    exists i: nat :: Run(h, i, k)
  }

  /** What the consumed messages among the first `n` answer; later answers replace earlier ones. */
  ghost function Results(h: seq<Message>, n: nat): map<string, string>
    requires n <= |h|
  {
    if n == 0 then map[]
    else if Consumed(h, n - 1) && h[n - 1].callId.Some? then
      Results(h, n - 1)[h[n - 1].callId.value := Text(h[n - 1])]
    else Results(h, n - 1)
  }

  function Kept(h: seq<Message>): seq<Message> {
    if h == [] then []
    else if Drops(h[|h| - 1]) then Kept(h[..|h| - 1])
    else Kept(h[..|h| - 1]) + [h[|h| - 1]]
  }

  /** A run goes on only behind a message that declares or was in it. */
  lemma NoRunStarts(h: seq<Message>, k: nat)
    requires k < |h| && !Declares(h[k]) && !Consumed(h, k)
    ensures !Consumed(h, k + 1)
  {
    var next := k + 1;
    forall i: nat
      ensures !Run(h, i, next)
    {
      assert !Run(h, i, k);
    }
  }

  /** The run after turn `i` ends at the first message that does not answer it. */
  lemma RunEnds(h: seq<Message>, i: nat, j: nat)
    requires i < j <= |h| && Declares(h[i])
    requires forall l :: i < l < j ==> Answers(h[i], h[l])
    requires j < |h| ==> !Answers(h[i], h[j])
    ensures !Consumed(h, j)
  {
    forall k: nat
      ensures !Run(h, k, j)
    {
      if k < i && j < |h| {
        assert !Answers(h[k], h[i]);
      }
      if i < k < j {
        assert Answers(h[i], h[k]);
      }
    }
  }

  /** `remove` marks exactly the dropped ones of the first `n` messages. */
  ghost predicate Marks(h: seq<Message>, remove: seq<bool>, n: nat) {
    |remove| == |h| && forall k :: 0 <= k < |h| ==> (remove[k] <==> k < n && Drops(h[k]))
  }

  lemma MarksStep(h: seq<Message>, before: seq<bool>, n: nat, after: seq<bool>)
    requires n < |h| && Marks(h, before, n) && after == before[n := Drops(h[n])]
    ensures Marks(h, after, n + 1)
  {
    hide Drops;
  }

  lemma ResultsStep(h: seq<Message>, n: nat)
    requires n < |h|
    ensures Results(h, n + 1) ==
            if Consumed(h, n) && h[n].callId.Some? then Results(h, n)[h[n].callId.value := Text(h[n])]
            else Results(h, n)
  {
  }

  lemma NoneBefore(h: seq<Message>)
    ensures !Consumed(h, 0)
  {
  }

  /** A declaring turn goes, and so does the run of answers directly after it. */
  method Consume(messages: seq<Message>, i: nat, remove: array<bool>, before: map<string, string>)
    returns (j: nat, results: map<string, string>)
    requires i < |messages| && Declares(messages[i]) && !Consumed(messages, i)
    requires Marks(messages, remove[..], i) && before == Results(messages, i)
    modifies remove
    ensures i < j <= |messages| && !Consumed(messages, j)
    ensures Marks(messages, remove[..], j) && results == Results(messages, j)
  {
    hide Consumed, Results, Run, Marks;
    ghost var marks := remove[..];
    assert remove.Length == |messages| by { MarksLength(messages, marks, i); }
    remove[i] := true;
    assert remove[..] == marks[i := true];
    MarksStep(messages, marks, i, remove[..]);
    ResultsStep(messages, i);
    results := before;
    j := i + 1;
    while j < |messages| && messages[j].role.Tool?
      invariant i < j <= |messages|
      invariant Marks(messages, remove[..], j) && results == Results(messages, j)
      invariant forall l :: i < l < j ==> Answers(messages[i], messages[l])
    {
      if messages[j].callId.None? || !IsExternalId(messages[j].callId.value) ||
         messages[j].callId.value !in messages[i].calls {
        break;
      }
      InRun(messages, i, j);
      ResultsStep(messages, j);
      results := results[messages[j].callId.value := Text(messages[j])];
      marks := remove[..];
      remove[j] := true;
      assert remove[..] == marks[j := true];
      MarksStep(messages, marks, j, remove[..]);
      j := j + 1;
    }
    RunEnds(messages, i, j);
  }

  lemma MarksLength(h: seq<Message>, remove: seq<bool>, n: nat)
    requires Marks(h, remove, n)
    ensures |remove| == |h| && forall k :: n <= k < |h| ==> !remove[k]
  {
  }

  lemma MarksAll(h: seq<Message>, remove: seq<bool>)
    requires Marks(h, remove, |h|)
    ensures |remove| == |h| && forall k :: 0 <= k < |h| ==> (remove[k] <==> Drops(h[k]))
  {
  }

  method BuildExternalResults(messages: seq<Message>) returns (results: map<string, string>, sanitized: seq<Message>)
    ensures results == Results(messages, |messages|)
    ensures sanitized == Kept(messages)
  {
    hide Consumed, Declares;
    results := map[];
    var remove := new bool[|messages|](_ => false);
    var i := 0;
    NoneBefore(messages);
    while i < |messages|
      invariant i <= |messages|
      invariant results == Results(messages, i) && Marks(messages, remove[..], i) && !Consumed(messages, i)
    {
      var msg := messages[i];
      if Declares(msg) {
        i, results := Consume(messages, i, remove, results);
      } else {
        ghost var marks := remove[..];
        MarksLength(messages, marks, i);
        if msg.role.Tool? && msg.callId.Some? && IsExternalId(msg.callId.value) {
          remove[i] := true;
        }
        assert remove[..] == marks[i := Drops(msg)];
        MarksStep(messages, marks, i, remove[..]);
        ResultsStep(messages, i);
        NoRunStarts(messages, i);
        i := i + 1;
      }
    }
    sanitized := Unmarked(messages, remove);
  }

  method Unmarked(messages: seq<Message>, remove: array<bool>) returns (sanitized: seq<Message>)
    requires Marks(messages, remove[..], |messages|)
    ensures sanitized == Kept(messages)
  {
    hide Drops, Marks;
    MarksAll(messages, remove[..]);
    sanitized := [];
    for k := 0 to |messages|
      invariant sanitized == Kept(messages[..k])
    {
      assert messages[..k + 1][..k] == messages[..k];
      assert remove[..][k] == remove[k];
      if !remove[k] {
        sanitized := sanitized + [messages[k]];
      }
    }
    assert messages[..|messages|] == messages;
  }

  lemma InRun(h: seq<Message>, i: nat, j: nat)
    requires i < j < |h| && Declares(h[i]) && Answers(h[i], h[j])
    requires forall l :: i < l < j ==> Answers(h[i], h[l])
    ensures Consumed(h, j)
  {
    assert Run(h, i, j);
  }

  // ---------------------------------------------------------------------------------------
  // What the two results are.
  // ---------------------------------------------------------------------------------------

  /** The k-th message is the last consumed one with this id. */
  ghost predicate LastAnswer(h: seq<Message>, n: nat, id: string, k: nat)
    requires n <= |h|
  {
    && k < n && Consumed(h, k) && h[k].callId == Some(id)
    && forall l :: k < l < n && Consumed(h, l) ==> h[l].callId != Some(id)
  }

  /** An id has a result exactly when some answer in a run has it, and the result is the last one. */
  lemma {:induction false} ResultIsLastAnswer(h: seq<Message>, n: nat, id: string, text: string)
    requires n <= |h|
    ensures (id in Results(h, n) && Results(h, n)[id] == text) <==>
            (exists k: nat :: LastAnswer(h, n, id, k) && text == if h[k].content.Some? then h[k].content.value else "")
  {
    hide Consumed;
    if n > 0 {
      ResultIsLastAnswer(h, n - 1, id, text);
      var last := h[n - 1];
      if Consumed(h, n - 1) && last.callId == Some(id) {
        assert LastAnswer(h, n, id, n - 1);
      } else {
        forall k: nat
          ensures LastAnswer(h, n, id, k) <==> LastAnswer(h, n - 1, id, k)
        {
        }
      }
    }
  }

  /** The kept messages by their places in the history. */
  function Places(h: seq<Message>): seq<nat> {
    if h == [] then []
    else if Drops(h[|h| - 1]) then Places(h[..|h| - 1])
    else Places(h[..|h| - 1]) + [|h| - 1]
  }

  /** The sanitized history is the history without exactly the dropped messages, in its order. */
  lemma {:induction false} KeptIsExact(h: seq<Message>)
    ensures |Places(h)| == |Kept(h)|
    ensures forall i :: 0 <= i < |Kept(h)| ==> Places(h)[i] < |h| && Kept(h)[i] == h[Places(h)[i]]
    ensures forall i, j :: 0 <= i < j < |Kept(h)| ==> Places(h)[i] < Places(h)[j]
    ensures forall k :: 0 <= k < |h| ==> (k in Places(h) <==> !Drops(h[k]))
  {
    hide Drops;
    if h != [] {
      var before := h[..|h| - 1];
      KeptIsExact(before);
      var p := Places(before);
      forall k | 0 <= k < |h|
        ensures k in Places(h) <==> !Drops(h[k])
      {
        assert k in p + [|h| - 1] <==> k in p || k == |h| - 1;
      }
    }
  }

  /** What is dropped: assistant turns with a call whose id starts with `ext:`, and tool messages that
      answer such an id. */
  lemma DropsExternal(m: Message)
    ensures Drops(m) <==>
      || (m.role == Assistant && exists c :: c in m.calls && "ext:" <= c)
      || (m.role == Tool && m.callId.Some? && "ext:" <= m.callId.value)
  {
    if Declares(m) {
      var i :| 0 <= i < |m.calls| && IsExternalId(m.calls[i]);
      assert m.calls[i] in m.calls;
    }
    if c :| c in m.calls && "ext:" <= c {
      var i :| 0 <= i < |m.calls| && m.calls[i] == c;
      assert IsExternalId(m.calls[i]);
    }
  }

  /** A consumed message stands, with nothing but such answers between, behind an assistant turn that
      declares its id, and the id starts with `ext:`. */
  lemma ConsumedFollows(h: seq<Message>, k: nat)
    ensures Consumed(h, k) <==> exists i: nat :: i < k < |h| && DirectlyFollows(h, i, k)
  {
    if i: nat :| Run(h, i, k) {
      forall l | i < l <= k
        ensures FollowsUp(h[i], h[l])
      {
        assert Answers(h[i], h[l]);
      }
      assert DirectlyFollows(h, i, k);
    }
    if i: nat :| i < k < |h| && DirectlyFollows(h, i, k) {
      assert FollowsUp(h[i], h[k]);
      var c := h[k].callId.value;
      var j :| 0 <= j < |h[i].calls| && h[i].calls[j] == c;
      assert IsExternalId(h[i].calls[j]);
      assert Run(h, i, k);
    }
  }

  predicate FollowsUp(turn: Message, m: Message) {
    && turn.role == Assistant && m.role == Tool
    && m.callId.Some? && m.callId.value in turn.calls && "ext:" <= m.callId.value
  }

  ghost predicate DirectlyFollows(h: seq<Message>, i: nat, k: nat)
    requires i < k < |h|
  {
    forall l :: i < l <= k ==> FollowsUp(h[i], h[l])
  }

  lemma {:induction false} KeptDropsNone(h: seq<Message>)
    ensures forall i :: 0 <= i < |Kept(h)| ==> !Drops(Kept(h)[i])
  {
    hide Drops;
    if h != [] { KeptDropsNone(h[..|h| - 1]); }
  }

  lemma {:induction false} NothingToDrop(h: seq<Message>)
    requires forall i :: 0 <= i < |h| ==> !Drops(h[i])
    ensures Kept(h) == h
  {
    hide Drops;
    if h != [] { NothingToDrop(h[..|h| - 1]); }
  }

  lemma {:induction false} NothingConsumed(h: seq<Message>, n: nat)
    requires n <= |h| && forall i :: 0 <= i < |h| ==> !Drops(h[i])
    ensures Results(h, n) == map[]
  {
    if n > 0 {
      NothingConsumed(h, n - 1);
      var last := n - 1;
      forall i: nat
        ensures !Run(h, i, last)
      {
        if i < |h| { assert !Drops(h[i]); }
      }
    }
  }

  /** On its own output the function changes nothing and finds no results. */
  lemma SanitizedIsStable(h: seq<Message>)
    ensures Kept(Kept(h)) == Kept(h)
    ensures Results(Kept(h), |Kept(h)|) == map[]
  {
    KeptDropsNone(h);
    NothingToDrop(Kept(h));
    NothingConsumed(Kept(h), |Kept(h)|);
  }
}
