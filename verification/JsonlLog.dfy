/**
 The append-only log of usage records: one JSON text per line, rotation, and recovery from a crash
 that cut the last append short, at any byte.

 JSON is a parameter: an encoding without newlines, whose texts read back, and no proper prefix
 of which can be read. A text is its bytes, and a line that is cut inside a character reads as none.
 */
module JsonlLog {

  import opened Wrappers
  import opened UsageSpec

  type Byte = b: int | 0 <= b < 256 witness 0

  type Bytes = seq<Byte>

  const NEWLINE: Byte := 10

  datatype Codec = Codec(encode: UsageRecord -> Bytes, decode: Bytes -> Option<UsageRecord>)

  ghost predicate Sound(c: Codec) {
    forall r: UsageRecord ::
      && c.decode(c.encode(r)) == Some(r) && c.encode(r) != []
      && (forall i :: 0 <= i < |c.encode(r)| ==> c.encode(r)[i] != NEWLINE)
      && (forall k :: 0 <= k < |c.encode(r)| ==> c.decode(c.encode(r)[..k]) == None)
  }

  // ---------------------------------------------------------------------------------------
  // Reading a text line by line.
  // ---------------------------------------------------------------------------------------

  /** The length of the first line. */
  function LineEnd(text: Bytes): (k: nat)
    ensures k <= |text|
    ensures k < |text| ==> text[k] == NEWLINE
    ensures forall j :: 0 <= j < k ==> text[j] != NEWLINE
  {
    if text == [] || text[0] == NEWLINE then 0 else 1 + LineEnd(text[1..])
  }

  function One(r: Option<UsageRecord>): seq<UsageRecord> {
    if r.Some? then [r.value] else []
  }

  /** The records of a text: every line that can be decoded, in order. */
  function Read(c: Codec, text: Bytes): seq<UsageRecord>
    decreases |text|
  {
    var k := LineEnd(text);
    if k == |text| then One(c.decode(text)) else One(c.decode(text[..k])) + Read(c, text[k + 1..])
  }

  /** A newline separates what is before it from what is after it. */
  lemma {:induction false} ReadSplits(c: Codec, a: Bytes, b: Bytes)
    ensures Read(c, a + [NEWLINE] + b) == Read(c, a) + Read(c, b)
    decreases |a|
  {
    hide One, Read, LineEnd;
    var text, k := a + [NEWLINE] + b, LineEnd(a);
    LineEndOf(a, b);
    ReadFirst(c, text);
    ReadFirst(c, a);
    if k == |a| {
      assert text[..k] == a && text[k + 1..] == b;
    } else {
      assert text[..k] == a[..k] && text[k + 1..] == a[k + 1..] + [NEWLINE] + b;
      ReadSplits(c, a[k + 1..], b);
    }
  }

  lemma ReadFirst(c: Codec, text: Bytes)
    ensures var k := LineEnd(text);
      Read(c, text) == if k == |text| then One(c.decode(text)) else One(c.decode(text[..k])) + Read(c, text[k + 1..])
  {
    hide One, LineEnd;
  }

  lemma {:induction false} LineEndOf(a: Bytes, b: Bytes)
    ensures LineEnd(a + [NEWLINE] + b) == LineEnd(a)
  {
    if a != [] && a[0] != NEWLINE {
      assert (a + [NEWLINE] + b)[1..] == a[1..] + [NEWLINE] + b;
      LineEndOf(a[1..], b);
    }
  }

  lemma {:induction false} OneLine(text: Bytes)
    requires forall i :: 0 <= i < |text| ==> text[i] != NEWLINE
    ensures LineEnd(text) == |text|
  {
    if text != [] { OneLine(text[1..]); }
  }

  // ---------------------------------------------------------------------------------------
  // The file: appends, and appends cut short.
  // ---------------------------------------------------------------------------------------

  predicate EndsLine(text: Bytes) {
    text == [] || text[|text| - 1] == NEWLINE
  }

  /** What one append adds to the file. */
  function Addition(c: Codec, r: UsageRecord, needsNewline: bool): Bytes {
    (if needsNewline then [NEWLINE] else []) + c.encode(r) + [NEWLINE]
  }

  /** An append that may have been cut after `cut` bytes. */
  function Appended(c: Codec, text: Bytes, r: UsageRecord, cut: nat): Bytes
    requires cut <= |Addition(c, r, !EndsLine(text))|
  {
    text + Addition(c, r, !EndsLine(text))[..cut]
  }

  /** Whether the whole JSON text of the record reached the file. */
  predicate Whole(c: Codec, text: Bytes, r: UsageRecord, cut: nat) {
    cut >= (if EndsLine(text) then 0 else 1) + |c.encode(r)|
  }

  /** Wherever an append is cut, the records before it are still read, and the new one is read
      exactly when its JSON text is whole; a torn tail of an earlier crash stays isolated. */
  lemma AppendReads(c: Codec, text: Bytes, r: UsageRecord, cut: nat)
    requires Sound(c) && cut <= |Addition(c, r, !EndsLine(text))|
    ensures Read(c, Appended(c, text, r, cut)) == Read(c, text) + if Whole(c, text, r, cut) then [r] else []
  {
    hide Read, Sound;
    var line := c.encode(r);
    var add := Addition(c, r, !EndsLine(text));
    EmptyReads(c, r);
    if EndsLine(text) {
      TailReads(c, line, r, cut);
      assert add == line + [NEWLINE];
      AfterLine(c, text, add[..cut]);
      assert Read(c, text + add[..cut]) == Read(c, text) + Read(c, add[..cut]);
    } else if cut == 0 {
      assert text + add[..0] == text;
    } else {
      TailReads(c, line, r, cut - 1);
      assert add == [NEWLINE] + (line + [NEWLINE]);
      assert text + add[..cut] == text + [NEWLINE] + (line + [NEWLINE])[..cut - 1];
      ReadSplits(c, text, (line + [NEWLINE])[..cut - 1]);
    }
  }

  /** Behind a text that ends its last line, any text is read by itself. */
  lemma AfterLine(c: Codec, text: Bytes, more: Bytes)
    requires EndsLine(text) && Read(c, []) == []
    ensures Read(c, text + more) == Read(c, text) + Read(c, more)
  {
    hide Read;
    if text == [] {
      assert text + more == more;
    } else {
      var body := text[..|text| - 1];
      assert text == body + [NEWLINE] + [] && text + more == body + [NEWLINE] + more;
      ReadSplits(c, body, []);
      ReadSplits(c, body, more);
    }
  }

  lemma EmptyReads(c: Codec, r: UsageRecord)
    requires Sound(c)
    ensures Read(c, []) == []
  {
    assert c.encode(r)[..0] == [];
    assert c.decode([]) == None;
  }

  lemma TailReads(c: Codec, line: Bytes, r: UsageRecord, cut: nat)
    requires Sound(c) && line == c.encode(r) && cut <= |line| + 1
    ensures Read(c, (line + [NEWLINE])[..cut]) == if cut >= |line| then [r] else []
  {
    var tail := (line + [NEWLINE])[..cut];
    if cut <= |line| {
      assert tail == line[..cut];
      OneLine(tail);
      assert line[..|line|] == line;
    } else {
      assert tail == line + [NEWLINE] + [];
      ReadSplits(c, line, []);
      OneLine(line);
      EmptyReads(c, r);
    }
  }

  // ---------------------------------------------------------------------------------------
  // The sink over its whole life.
  // ---------------------------------------------------------------------------------------

  /** What is on disk: rotated files, oldest first, and the current file. */
  datatype Disk = Disk(rotated: seq<Bytes>, current: Bytes)

  function ReadAll(c: Codec, files: seq<Bytes>): seq<UsageRecord> {
    if files == [] then [] else ReadAll(c, files[..|files| - 1]) + Read(c, files[|files| - 1])
  }

  function ReadDisk(c: Codec, d: Disk): seq<UsageRecord> {
    ReadAll(c, d.rotated) + Read(c, d.current)
  }

  function Rotated(d: Disk): Disk {
    Disk(d.rotated + [d.current], [])
  }

  lemma RotationKeeps(c: Codec, d: Disk, r: UsageRecord)
    requires Sound(c)
    ensures ReadDisk(c, Rotated(d)) == ReadDisk(c, d)
  {
    EmptyReads(c, r);
    assert Rotated(d).rotated[..|d.rotated|] == d.rotated;
  }

  /** One event in the life of the log: a record is offered, the file is perhaps rotated, and the
      append is cut at `cut` when the process crashes in it. */
  datatype Event = Event(record: UsageRecord, rotate: bool, cut: Option<nat>)

  function Target(d: Disk, rotate: bool): Disk {
    if rotate && d.current != [] then Rotated(d) else d
  }

  ghost predicate Possible(c: Codec, d: Disk, e: Event) {
    e.cut.Some? ==> e.cut.value <= |Addition(c, e.record, !EndsLine(Target(d, e.rotate).current))|
  }

  ghost function Followed(c: Codec, d: Disk, e: Event): Disk
    requires Possible(c, d, e)
  {
    if HasId(ReadDisk(c, d), e.record.id) then d
    else
      var t := Target(d, e.rotate);
      var all := |Addition(c, e.record, !EndsLine(t.current))|;
      t.(current := Appended(c, t.current, e.record, if e.cut.Some? then e.cut.value else all))
  }

  /** What an event adds to the records that can be read: the record, when it is new and its JSON
      text is whole on disk. */
  ghost function Gained(c: Codec, d: Disk, e: Event): seq<UsageRecord> {
    if HasId(ReadDisk(c, d), e.record.id) then []
    else if e.cut.None? || Whole(c, Target(d, e.rotate).current, e.record, e.cut.value) then [e.record]
    else []
  }

  lemma EventReads(c: Codec, d: Disk, e: Event)
    requires Sound(c) && Possible(c, d, e)
    ensures ReadDisk(c, Followed(c, d, e)) == ReadDisk(c, d) + Gained(c, d, e)
  {
    hide Read, EndsLine, Sound;
    if !HasId(ReadDisk(c, d), e.record.id) {
      var t := Target(d, e.rotate);
      RotationKeeps(c, d, e.record);
      var all := |Addition(c, e.record, !EndsLine(t.current))|;
      AppendReads(c, t.current, e.record, if e.cut.Some? then e.cut.value else all);
    }
  }

  ghost predicate Run(c: Codec, d: Disk, events: seq<Event>)
    decreases |events|
  {
    events == [] || (Possible(c, d, events[0]) && Run(c, Followed(c, d, events[0]), events[1..]))
  }

  ghost function Final(c: Codec, d: Disk, events: seq<Event>): Disk
    requires Run(c, d, events)
    decreases |events|
  {
    if events == [] then d else Final(c, Followed(c, d, events[0]), events[1..])
  }

  /** The records that reached the disk whole, in the order they were offered. */
  ghost function Written(c: Codec, d: Disk, events: seq<Event>): seq<UsageRecord>
    requires Run(c, d, events)
    decreases |events|
  {
    if events == [] then [] else Gained(c, d, events[0]) + Written(c, Followed(c, d, events[0]), events[1..])
  }

  /** The files in the order they were begun: each event adds exactly what it gains, and no id is
      written twice. */
  lemma {:induction false} DiskGrows(c: Codec, d: Disk, events: seq<Event>)
    requires Sound(c) && Run(c, d, events) && DistinctIds(ReadDisk(c, d))
    ensures ReadDisk(c, Final(c, d, events)) == ReadDisk(c, d) + Written(c, d, events)
    ensures DistinctIds(ReadDisk(c, Final(c, d, events)))
    decreases |events|
  {
    if events != [] {
      var e := events[0];
      EventReads(c, d, e);
      DiskGrows(c, Followed(c, d, e), events[1..]);
    }
  }

  lemma {:induction false} ReadAllConcat(c: Codec, a: seq<Bytes>, b: seq<Bytes>)
    ensures ReadAll(c, a + b) == ReadAll(c, a) + ReadAll(c, b)
  {
    if b == [] {
      assert a + b == a;
    } else {
      assert (a + b)[..|a + b| - 1] == a + b[..|b| - 1];
      ReadAllConcat(c, a, b[..|b| - 1]);
    }
  }

  /** Reading the same files in another order gives the same records, each as often. */
  lemma {:induction false} OrderDoesNotMatter(c: Codec, a: seq<Bytes>, b: seq<Bytes>)
    requires multiset(a) == multiset(b)
    ensures multiset(ReadAll(c, a)) == multiset(ReadAll(c, b))
  {
    if a == [] {
      assert |b| == |multiset(b)| == |multiset(a)| == |a|;
    } else {
      hide Read, ReadAll;
      var f, rest := a[|a| - 1], a[..|a| - 1];
      assert a == rest + [f];
      assert f in multiset(b);
      var k :| 0 <= k < |b| && b[k] == f;
      var others := b[..k] + b[k + 1..];
      WithoutOne(a, |a| - 1);
      WithoutOne(b, k);
      assert a[..|a| - 1] + a[|a| - 1 + 1..] == rest;
      OrderDoesNotMatter(c, rest, others);
      LastRead(c, a);
      ReadWithout(c, b, k);
    }
  }

  lemma WithoutOne(a: seq<Bytes>, k: nat)
    requires k < |a|
    ensures multiset(a[..k] + a[k + 1..]) == multiset(a) - multiset{a[k]}
  {
    assert a == a[..k] + [a[k]] + a[k + 1..];
  }

  lemma LastRead(c: Codec, a: seq<Bytes>)
    requires a != []
    ensures multiset(ReadAll(c, a)) == multiset(ReadAll(c, a[..|a| - 1])) + multiset(Read(c, a[|a| - 1]))
  {
  }

  lemma ReadWithout(c: Codec, b: seq<Bytes>, k: nat)
    requires k < |b|
    ensures multiset(ReadAll(c, b)) == multiset(ReadAll(c, b[..k] + b[k + 1..])) + multiset(Read(c, b[k]))
  {
    hide Read;
    var f := b[k];
    assert b == b[..k] + ([f] + b[k + 1..]);
    ReadAllConcat(c, b[..k], [f] + b[k + 1..]);
    ReadAllConcat(c, [f], b[k + 1..]);
    ReadAllConcat(c, b[..k], b[k + 1..]);
    assert ReadAll(c, [f]) == ReadAll(c, [f][..0]) + Read(c, f);
  }

  lemma {:induction false} HeldOnce(rs: seq<UsageRecord>, r: UsageRecord)
    requires DistinctIds(rs)
    ensures multiset(rs)[r] <= 1
  {
    if rs != [] {
      var rest, last := rs[..|rs| - 1], rs[|rs| - 1];
      assert rs == rest + [last];
      HeldOnce(rest, r);
      forall i | 0 <= i < |rest|
        ensures rest[i] != last
      {
        assert rs[i].id != rs[|rs| - 1].id;
      }
    }
  }

  lemma TwiceHeld(rs: seq<UsageRecord>, i: nat, j: nat)
    requires i < j < |rs| && rs[i] == rs[j]
    ensures multiset(rs)[rs[i]] >= 2
  {
    assert rs == rs[..j] + ([rs[j]] + rs[j + 1..]);
    assert rs[i] in rs[..j];
  }

  /** Whether ids repeat does not depend on the order either. */
  lemma DistinctInAnyOrder(a: seq<UsageRecord>, b: seq<UsageRecord>)
    requires multiset(a) == multiset(b) && DistinctIds(a)
    ensures DistinctIds(b)
  {
    forall i, j | 0 <= i < j < |b|
      ensures b[i].id != b[j].id
    {
      if b[i] == b[j] {
        TwiceHeld(b, i, j);
        HeldOnce(a, b[i]);
      } else {
        assert b[i] in multiset(a) && b[j] in multiset(a);
        var k :| 0 <= k < |a| && a[k] == b[i];
        var l :| 0 <= l < |a| && a[l] == b[j];
      }
    }
  }

  /** Over any sequence of writes, rotations and crashes, reading returns what could be read before
      and each wholly written record, each id once and nothing else. The files may be listed in any
      order: the program sorts their names, which puts the current file first. */
  lemma RecoveryIsExact(c: Codec, d: Disk, events: seq<Event>, files: seq<Bytes>)
    requires Sound(c) && Run(c, d, events) && DistinctIds(ReadDisk(c, d))
    requires multiset(files) == multiset(Final(c, d, events).rotated + [Final(c, d, events).current])
    ensures multiset(ReadAll(c, files)) == multiset(ReadDisk(c, d) + Written(c, d, events))
    ensures DistinctIds(ReadAll(c, files))
  {
    var e := Final(c, d, events);
    DiskGrows(c, d, events);
    var all := e.rotated + [e.current];
    OrderDoesNotMatter(c, files, all);
    assert all[..|all| - 1] == e.rotated;
    DistinctInAnyOrder(ReadDisk(c, e), ReadAll(c, files));
  }

  function IdsOf(rs: seq<UsageRecord>): set<RecordId> {
    set i | 0 <= i < |rs| :: rs[i].id
  }

  lemma IdsOfMore(rs: seq<UsageRecord>, r: UsageRecord)
    ensures IdsOf(rs + [r]) == IdsOf(rs) + {r.id}
  {
    var n := rs + [r];
    forall x | x in IdsOf(rs) + {r.id}
      ensures x in IdsOf(n)
    {
      if x in IdsOf(rs) {
        var i :| 0 <= i < |rs| && rs[i].id == x;
        assert n[i].id == x;
      } else {
        assert n[|rs|].id == x;
      }
    }
  }

  /** The ids of what initialisation reads. */
  method CollectIds(all: seq<UsageRecord>) returns (ids: set<RecordId>)
    ensures ids == IdsOf(all)
  {
    ids := {};
    for i := 0 to |all|
      invariant ids == IdsOf(all[..i])
    {
      assert all[..i + 1] == all[..i] + [all[i]];
      IdsOfMore(all[..i], all[i]);
      ids := ids + {all[i].id};
    }
    assert all[..|all|] == all;
  }

  /** The sink object: the files, and what it remembers of them. */
  class JsonlSink {
    const codec: Codec
    const rotateBytes: nat
    var disk: Disk
    var ids: set<RecordId>
    var needsNewline: bool

    /** The memory of a running process agrees with the disk. */
    ghost predicate Valid()
      reads this
    {
      && Sound(codec)
      && ids == IdsOf(ReadDisk(codec, disk))
      && needsNewline == !EndsLine(disk.current)
    }

    /** A process starts on whatever an earlier one left. */
    constructor (codec: Codec, rotateBytes: nat, disk: Disk)
      requires Sound(codec)
      ensures Valid() && this.disk == disk && this.codec == codec
    {
      this.codec, this.rotateBytes, this.disk := codec, rotateBytes, disk;
      needsNewline := |disk.current| > 0 && disk.current[|disk.current| - 1] != NEWLINE;
      ids := {};
      new;
      hide Sound, ReadDisk, IdsOf;
      ids := CollectIds(ReadDisk(codec, disk));
    }

    /** One record of a batch. */
    method WriteOne(record: UsageRecord)
      requires Valid()
      modifies this
      ensures Valid()
      ensures var line := codec.encode(record) + [NEWLINE];
        var rotate := |old(disk).current| > 0 && |old(disk).current| + |line| > rotateBytes;
        disk == Followed(codec, old(disk), Event(record, rotate, None))
      ensures HasId(ReadDisk(codec, old(disk)), record.id) ==> disk == old(disk)
      ensures var line, d := codec.encode(record) + [NEWLINE], old(disk);
        var full := 0 < |d.current| && |d.current| + |line| > rotateBytes;
        !HasId(ReadDisk(codec, d), record.id) ==>
          && disk.rotated == d.rotated + (if full then [d.current] else [])
          && (disk.current == line || (|disk.current| <= rotateBytes + 1 && d.current <= disk.current))
    {
      hide ReadDisk, Read, IdsOf, Sound, EndsLine;
      HeldIsKnown(ReadDisk(codec, disk), record.id);
      if record.id in ids {
        return;
      }
      var line := codec.encode(record) + [NEWLINE];
      var bytes := |disk.current|;
      ghost var rotate := bytes > 0 && bytes + |line| > rotateBytes;
      EventReads(codec, disk, Event(record, rotate, None));
      if bytes > 0 && bytes + |line| > rotateBytes {
        disk := Rotated(disk);
        needsNewline := false;
        EmptyEnds();
      }
      WholeAppend(codec, disk.current, record);
      IdsOfMore(ReadDisk(codec, old(disk)), record);
      ghost var before := disk.current;
      disk := disk.(current := disk.current + ((if needsNewline then [NEWLINE] else []) + line));
      assert before == [] ==> !needsNewline && disk.current == line by { EmptyEnds(); }
      needsNewline := false;
      ids := ids + {record.id};
    }

    /** `write`: the records of a batch one after the other. */
    method Write(batch: seq<UsageRecord>)
      requires Valid()
      modifies this
      ensures Valid()
      ensures exists events: seq<Event> :: Wrote(codec, old(disk), disk, batch, events)
    {
      hide Sound, ReadDisk, IdsOf, EndsLine, Run, Final, Followed;
      ghost var events: seq<Event> := [];
      NoEvents(codec, disk);
      for k := 0 to |batch|
        invariant Valid() && Wrote(codec, old(disk), disk, batch[..k], events)
      {
        ghost var line := codec.encode(batch[k]) + [NEWLINE];
        ghost var rotate := |disk.current| > 0 && |disk.current| + |line| > rotateBytes;
        RunMore(codec, old(disk), events, Event(batch[k], rotate, None));
        WriteOne(batch[k]);
        events := events + [Event(batch[k], rotate, None)];
      }
      assert batch[..|batch|] == batch;
    }
  }

  /** The disk went from `d` to `e` by uncut events, one for each record of the batch. */
  ghost predicate Wrote(c: Codec, d: Disk, e: Disk, batch: seq<UsageRecord>, events: seq<Event>) {
    && |events| == |batch| && Run(c, d, events) && e == Final(c, d, events)
    && forall i :: 0 <= i < |batch| ==> events[i].record == batch[i] && events[i].cut == None
  }

  lemma NoEvents(c: Codec, d: Disk)
    ensures Run(c, d, []) && Final(c, d, []) == d
  {
  }

  lemma HeldIsKnown(rs: seq<UsageRecord>, id: RecordId)
    ensures HasId(rs, id) <==> id in IdsOf(rs)
  {
  }

  lemma EmptyEnds()
    ensures EndsLine([])
  {
  }

  lemma WholeAppend(c: Codec, text: Bytes, r: UsageRecord)
    ensures var add := Addition(c, r, !EndsLine(text));
      && Appended(c, text, r, |add|) == text + ((if EndsLine(text) then [] else [NEWLINE]) + (c.encode(r) + [NEWLINE]))
      && EndsLine(Appended(c, text, r, |add|))
  {
    var add := Addition(c, r, !EndsLine(text));
    assert add[..|add|] == add;
    assert add == (if EndsLine(text) then [] else [NEWLINE]) + (c.encode(r) + [NEWLINE]);
  }

  lemma {:induction false} RunMore(c: Codec, d: Disk, events: seq<Event>, e: Event)
    requires Run(c, d, events) && Possible(c, Final(c, d, events), e)
    ensures Run(c, d, events + [e])
    ensures Final(c, d, events + [e]) == Followed(c, Final(c, d, events), e)
    decreases |events|
  {
    hide Followed;
    if events == [] {
      assert events + [e] == [e] && [e][1..] == [];
      assert Run(c, Followed(c, d, e), [e][1..]);
    } else {
      assert (events + [e])[0] == events[0] && (events + [e])[1..] == events[1..] + [e];
      RunMore(c, Followed(c, d, events[0]), events[1..], e);
    }
  }
}
