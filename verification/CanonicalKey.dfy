/**
 The canonical key of tool arguments: object keys sorted at every depth, then printed as JSON.

 Text is a sequence of UTF-16 code units. A JSON value is a tree; an object lists its fields in the
 order they are enumerated. A number is the text it is printed as.
 */
module CanonicalKey {

  type Unit = c: int | 0 <= c < 0x1_0000 witness 0

  type Text = seq<Unit>

  datatype Field = Field(key: Text, value: Json)

  datatype Json =
    | Null
    | Bool(b: bool)
    | Num(digits: Text)
    | Str(s: Text)
    | Arr(items: seq<Json>)
    | Obj(fields: seq<Field>)

  // ---------------------------------------------------------------------------------------
  // JSON values.
  // ---------------------------------------------------------------------------------------

  /** Digits, `+`, `-`, `.` and `e`. */
  predicate InNumber(c: Unit) {
    48 <= c <= 57 || c == 43 || c == 45 || c == 46 || c == 101
  }

  /** What a finite number prints as begins with a digit or a minus sign. */
  predicate IsNumber(t: Text) {
    t != [] && (48 <= t[0] <= 57 || t[0] == 45) && forall i :: 0 <= i < |t| ==> InNumber(t[i])
  }

  ghost predicate DistinctKeys(fields: seq<Field>) {
    forall i, j :: 0 <= i < j < |fields| ==> fields[i].key != fields[j].key
  }

  ghost predicate WellFormed(v: Json) {
    match v
    case Num(t) => IsNumber(t)
    case Arr(items) => forall i :: 0 <= i < |items| ==> WellFormed(items[i])
    case Obj(fields) => DistinctKeys(fields) && forall i :: 0 <= i < |fields| ==> WellFormed(fields[i].value)
    case _ => true
  }

  /** Equal up to the order of object keys, at every depth. */
  ghost predicate Same(a: Json, b: Json) {
    match a
    case Arr(items) =>
      b.Arr? && |items| == |b.items| && forall i :: 0 <= i < |items| ==> Same(items[i], b.items[i])
    case Obj(fields) => b.Obj? && SameInto(fields, b.fields) && SameOnto(fields, b.fields)
    case _ => a == b
  }

  /** Each field of the one is a field of the other. */
  ghost predicate SameInto(a: seq<Field>, b: seq<Field>) {
    forall i :: 0 <= i < |a| ==> HasSame(a[i], b)
  }

  ghost predicate SameOnto(a: seq<Field>, b: seq<Field>) {
    forall j :: 0 <= j < |b| ==> SameIn(a, b[j])
  }

  ghost predicate HasSame(f: Field, list: seq<Field>) {
    exists j :: 0 <= j < |list| && SameField(f, list[j])
  }

  ghost predicate SameIn(list: seq<Field>, g: Field) {
    exists i :: 0 <= i < |list| && SameField(list[i], g)
  }

  ghost predicate SameField(f: Field, g: Field) {
    f.key == g.key && Same(f.value, g.value)
  }

  // ---------------------------------------------------------------------------------------
  // Sorting keys.
  // ---------------------------------------------------------------------------------------

  /** The order of `sort()`: by code units. */
  predicate Less(a: Text, b: Text) {
    b != [] && (a == [] || a[0] < b[0] || (a[0] == b[0] && Less(a[1..], b[1..])))
  }

  lemma {:induction false} LessTotal(a: Text, b: Text)
    ensures a == b || Less(a, b) || Less(b, a)
    ensures !(Less(a, b) && Less(b, a)) && (a == b ==> !Less(a, b))
  {
    if a != [] && b != [] {
      LessTotal(a[1..], b[1..]);
      assert a == [a[0]] + a[1..] && b == [b[0]] + b[1..];
    }
  }

  lemma {:induction false} LessTransitive(a: Text, b: Text, c: Text)
    requires Less(a, b) && Less(b, c)
    ensures Less(a, c)
  {
    if a != [] && a[0] == b[0] == c[0] {
      LessTransitive(a[1..], b[1..], c[1..]);
    }
  }

  /** `f` before the first field it does not come after. */
  function Insert(f: Field, list: seq<Field>): (r: seq<Field>)
    ensures forall x :: x in r <==> x == f || x in list
    ensures |r| == |list| + 1
  {
    if list == [] || Less(f.key, list[0].key) then [f] + list
    else [list[0]] + Insert(f, list[1..])
  }

  function Sort(list: seq<Field>): (r: seq<Field>)
    ensures forall x :: x in r <==> x in list
    ensures |r| == |list|
  {
    if list == [] then [] else Insert(list[0], Sort(list[1..]))
  }

  ghost predicate Ascending(list: seq<Field>) {
    forall i, j :: 0 <= i < j < |list| ==> Less(list[i].key, list[j].key)
  }

  lemma {:induction false} InsertAscends(f: Field, list: seq<Field>)
    requires Ascending(list) && forall x :: x in list ==> x.key != f.key
    ensures Ascending(Insert(f, list))
  {
    if list != [] {
      LessTotal(f.key, list[0].key);
      if Less(f.key, list[0].key) {
        forall i | 0 < i < |list|
          ensures Less(f.key, list[i].key)
        {
          LessTransitive(f.key, list[0].key, list[i].key);
        }
      } else {
        var rest := list[1..];
        forall x | x in rest
          ensures x.key != f.key && Less(list[0].key, x.key)
        {
          assert x in list;
          var i :| 0 <= i < |rest| && rest[i] == x;
          assert list[i + 1] == x;
        }
        InsertAscends(f, rest);
        assert list[0] in list;
      }
    }
  }

  lemma {:induction false} SortAscends(list: seq<Field>)
    requires DistinctKeys(list)
    ensures Ascending(Sort(list))
  {
    if list != [] {
      SortAscends(list[1..]);
      InsertAscends(list[0], Sort(list[1..]));
    }
  }

  /** Two ascending lists of the same fields are the same list. */
  lemma {:induction false} AscendingUnique(a: seq<Field>, b: seq<Field>)
    requires Ascending(a) && Ascending(b) && forall x :: x in a <==> x in b
    ensures a == b
  {
    EmptyTogether(a, b);
    if a != [] {
      SameFirst(a, b);
      forall x
        ensures x in a[1..] <==> x in b[1..]
      {
        InRest(a, x);
        InRest(b, x);
      }
      AscendingUnique(a[1..], b[1..]);
    }
  }

  lemma EmptyTogether(a: seq<Field>, b: seq<Field>)
    requires forall x :: x in a <==> x in b
    ensures a == [] <==> b == []
  {
    if a != [] { assert a[0] in a; }
    if b != [] { assert b[0] in b; }
  }

  lemma SameFirst(a: seq<Field>, b: seq<Field>)
    requires Ascending(a) && Ascending(b) && a != [] && b != [] && forall x :: x in a <==> x in b
    ensures a[0] == b[0]
  {
    assert a[0] in b && b[0] in a;
    LessTotal(a[0].key, b[0].key);
  }

  lemma InRest(a: seq<Field>, x: Field)
    requires Ascending(a) && a != []
    ensures x in a[1..] <==> x in a && x != a[0]
  {
    LessTotal(a[0].key, a[0].key);
    if x in a && x != a[0] {
      var i :| 0 <= i < |a| && a[i] == x;
      assert a[1..][i - 1] == x;
    }
  }

  // ---------------------------------------------------------------------------------------
  // Array indices are enumerated before other keys, in numeric order.
  // ---------------------------------------------------------------------------------------

  predicate AllDigits(k: Text) {
    forall i :: 0 <= i < |k| ==> 48 <= k[i] <= 57
  }

  function Number(k: Text): int {
    if k == [] then 0 else 10 * Number(k[..|k| - 1]) + k[|k| - 1] as int - 48
  }

  /** An array index: the decimal text of a number below 2^32 - 1, without leading zeros. */
  predicate IsIndex(k: Text) {
    k != [] && AllDigits(k) && (k[0] == 48 ==> |k| == 1) && Number(k) < 0xFFFF_FFFF
  }

  function Indices(list: seq<Field>): (r: seq<Field>)
    ensures forall x :: x in r <==> x in list && IsIndex(x.key)
  {
    if list == [] then []
    else if IsIndex(list[0].key) then InsertIndex(list[0], Indices(list[1..]))
    else Indices(list[1..])
  }

  function InsertIndex(f: Field, list: seq<Field>): (r: seq<Field>)
    requires IsIndex(f.key) && forall x :: x in list ==> IsIndex(x.key)
    ensures forall x :: x in r <==> x == f || x in list
  {
    if list == [] then [f]
    else
      assert list[0] in list;
      if Number(f.key) < Number(list[0].key) then [f] + list
      else [list[0]] + InsertIndex(f, list[1..])
  }

  function Others(list: seq<Field>): (r: seq<Field>)
    ensures forall x :: x in r <==> x in list && !IsIndex(x.key)
  {
    if list == [] then []
    else if IsIndex(list[0].key) then Others(list[1..])
    else [list[0]] + Others(list[1..])
  }

  /** The fields of an object, in the order they are enumerated when they were added in this one. */
  function Enumerated(added: seq<Field>): (r: seq<Field>)
    ensures forall x :: x in r <==> x in added
  {
    Indices(added) + Others(added)
  }

  // ---------------------------------------------------------------------------------------
  // Canonical values.
  // ---------------------------------------------------------------------------------------

  function Canon(v: Json): Json {
    match v
    case Arr(items) => Arr(CanonItems(items))
    case Obj(fields) => Obj(Enumerated(Sort(CanonFields(fields))))
    case _ => v
  }

  function CanonItems(items: seq<Json>): (r: seq<Json>)
    ensures |r| == |items| && forall i :: 0 <= i < |r| ==> r[i] == Canon(items[i])
  {
    if items == [] then [] else [Canon(items[0])] + CanonItems(items[1..])
  }

  function CanonField(f: Field): Field {
    Field(f.key, Canon(f.value))
  }

  function CanonFields(fields: seq<Field>): (r: seq<Field>)
    ensures |r| == |fields|
    ensures forall i :: 0 <= i < |r| ==> r[i] == CanonField(fields[i])
  {
    if fields == [] then [] else [CanonField(fields[0])] + CanonFields(fields[1..])
  }

  /** Each field of one object has a field of the other with the same key and canonical value. */
  ghost predicate Covered(a: seq<Field>, b: seq<Field>) {
    forall i :: 0 <= i < |a| ==> HasCanon(a[i], b)
  }

  ghost predicate HasCanon(f: Field, list: seq<Field>) {
    exists j :: 0 <= j < |list| && CanonField(f) == CanonField(list[j])
  }

  ghost predicate Within(a: seq<Field>, b: seq<Field>) {
    forall i :: 0 <= i < |a| ==> a[i] in b
  }

  lemma CoveredIn(a: seq<Field>, b: seq<Field>)
    requires Covered(a, b)
    ensures Within(CanonFields(a), CanonFields(b))
  {
    hide CanonField;
    var ca, cb := CanonFields(a), CanonFields(b);
    forall i | 0 <= i < |ca|
      ensures ca[i] in cb
    {
      assert HasCanon(a[i], b);
      var j :| 0 <= j < |b| && CanonField(a[i]) == CanonField(b[j]);
      assert cb[j] == ca[i];
    }
  }

  lemma InCovered(a: seq<Field>, b: seq<Field>)
    requires Within(CanonFields(a), CanonFields(b))
    ensures Covered(a, b)
  {
    hide CanonField;
    var ca, cb := CanonFields(a), CanonFields(b);
    forall i | 0 <= i < |a|
      ensures HasCanon(a[i], b)
    {
      assert ca[i] in cb;
      var j :| 0 <= j < |cb| && cb[j] == ca[i];
      assert CanonField(a[i]) == CanonField(b[j]);
    }
  }

  lemma SortWithin(a: seq<Field>, b: seq<Field>)
    requires Within(a, b) && Within(b, a)
    ensures forall x :: x in Sort(a) <==> x in Sort(b)
  {
  }

  lemma EnumeratedWithin(a: seq<Field>, b: seq<Field>)
    requires Enumerated(Sort(a)) == Enumerated(Sort(b))
    ensures Within(a, b) && Within(b, a)
  {
    hide Enumerated, Sort;
    forall i | 0 <= i < |a|
      ensures a[i] in b
    {
      assert a[i] in Enumerated(Sort(a));
    }
    forall i | 0 <= i < |b|
      ensures b[i] in a
    {
      assert b[i] in Enumerated(Sort(b));
    }
  }

  lemma CanonObjectsEqual(a: seq<Field>, b: seq<Field>)
    requires DistinctKeys(a) && DistinctKeys(b) && Covered(a, b) && Covered(b, a)
    ensures Canon(Obj(a)) == Canon(Obj(b))
  {
    hide Covered, Enumerated, Sort, Ascending, Within;
    var ca, cb := CanonFields(a), CanonFields(b);
    CoveredIn(a, b);
    CoveredIn(b, a);
    SortAscends(ca);
    SortAscends(cb);
    SortWithin(ca, cb);
    AscendingUnique(Sort(ca), Sort(cb));
  }

  lemma CanonObjectsCovered(a: seq<Field>, b: seq<Field>)
    requires Canon(Obj(a)) == Canon(Obj(b))
    ensures Covered(a, b) && Covered(b, a)
  {
    hide Covered, Enumerated, Sort, Within;
    EnumeratedWithin(CanonFields(a), CanonFields(b));
    InCovered(a, b);
    InCovered(b, a);
  }

  /** Values that are the same up to key order have one canonical value. */
  lemma {:induction false} SameMeansCanonEqual(a: Json, b: Json)
    requires WellFormed(a) && WellFormed(b) && Same(a, b)
    ensures Canon(a) == Canon(b)
    decreases a
  {
    hide Enumerated, Sort, SameInto, SameOnto, Covered;
    match a
    case Arr(items) =>
      forall i | 0 <= i < |items|
        ensures Canon(items[i]) == Canon(b.items[i])
      {
        SameMeansCanonEqual(items[i], b.items[i]);
      }
      assert CanonItems(items) == CanonItems(b.items);
    case Obj(fields) =>
      SameIntoCovered(fields, b.fields);
      SameOntoCovered(fields, b.fields);
      CanonObjectsEqual(fields, b.fields);
    case _ =>
  }

  lemma {:induction false} SameIntoCovered(a: seq<Field>, b: seq<Field>)
    requires forall i :: 0 <= i < |a| ==> WellFormed(a[i].value)
    requires forall j :: 0 <= j < |b| ==> WellFormed(b[j].value)
    requires SameInto(a, b)
    ensures Covered(a, b)
    decreases a
  {
    hide CanonField, SameField, WellFormed;
    forall i | 0 <= i < |a|
      ensures HasCanon(a[i], b)
    {
      assert HasSame(a[i], b);
      var j :| 0 <= j < |b| && SameField(a[i], b[j]);
      SameFieldCanon(a[i], b[j]);
    }
  }

  lemma {:induction false} SameOntoCovered(a: seq<Field>, b: seq<Field>)
    requires forall i :: 0 <= i < |a| ==> WellFormed(a[i].value)
    requires forall j :: 0 <= j < |b| ==> WellFormed(b[j].value)
    requires SameOnto(a, b)
    ensures Covered(b, a)
    decreases a
  {
    hide CanonField, SameField, WellFormed;
    forall j | 0 <= j < |b|
      ensures HasCanon(b[j], a)
    {
      assert SameIn(a, b[j]);
      var i :| 0 <= i < |a| && SameField(a[i], b[j]);
      SameFieldCanon(a[i], b[j]);
    }
  }

  lemma {:induction false} SameFieldCanon(f: Field, g: Field)
    requires WellFormed(f.value) && WellFormed(g.value) && SameField(f, g)
    ensures CanonField(f) == CanonField(g)
    decreases f
  {
    hide Canon, Same, WellFormed;
    SameMeansCanonEqual(f.value, g.value);
  }

  /** And values with one canonical value are the same up to key order. */
  lemma {:induction false} CanonEqualMeansSame(a: Json, b: Json)
    requires Canon(a) == Canon(b)
    ensures Same(a, b)
    decreases a
  {
    hide Enumerated, Sort, SameInto, SameOnto, Covered;
    match a
    case Arr(items) =>
      var ca, cb := CanonItems(items), CanonItems(b.items);
      forall i | 0 <= i < |items|
        ensures Same(items[i], b.items[i])
      {
        assert ca[i] == cb[i];
        CanonEqualMeansSame(items[i], b.items[i]);
      }
    case Obj(fields) =>
      CanonObjectsCovered(fields, b.fields);
      CoveredSameInto(fields, b.fields);
      CoveredSameOnto(fields, b.fields);
    case _ =>
  }

  lemma {:induction false} CoveredSameInto(a: seq<Field>, b: seq<Field>)
    requires Covered(a, b)
    ensures SameInto(a, b)
    decreases a
  {
    hide CanonField, SameField;
    forall i | 0 <= i < |a|
      ensures HasSame(a[i], b)
    {
      assert HasCanon(a[i], b);
      var j :| 0 <= j < |b| && CanonField(a[i]) == CanonField(b[j]);
      CanonFieldSame(a[i], b[j]);
    }
  }

  lemma {:induction false} CoveredSameOnto(a: seq<Field>, b: seq<Field>)
    requires Covered(b, a)
    ensures SameOnto(a, b)
    decreases a
  {
    hide CanonField, SameField;
    forall j | 0 <= j < |b|
      ensures SameIn(a, b[j])
    {
      assert HasCanon(b[j], a);
      var i :| 0 <= i < |a| && CanonField(b[j]) == CanonField(a[i]);
      CanonFieldSame(a[i], b[j]);
    }
  }

  lemma {:induction false} CanonFieldSame(f: Field, g: Field)
    requires CanonField(f) == CanonField(g)
    ensures SameField(f, g)
    decreases f
  {
    hide Canon, Same;
    CanonEqualMeansSame(f.value, g.value);
  }

  // ---------------------------------------------------------------------------------------
  // Canonical values are canonical.
  // ---------------------------------------------------------------------------------------

  /** Canonicalising changes nothing but the order of keys. */
  lemma {:induction false} CanonIsSame(v: Json)
    ensures Same(Canon(v), v)
    decreases v
  {
    hide Enumerated, Sort, SameInto, SameOnto, Covered;
    match v
    case Arr(items) =>
      forall i | 0 <= i < |items|
        ensures Same(CanonItems(items)[i], items[i])
      {
        CanonIsSame(items[i]);
      }
    case Obj(fields) => CanonFieldsSame(fields);
    case _ =>
  }

  lemma {:induction false} CanonFieldsSame(fields: seq<Field>)
    ensures SameInto(Enumerated(Sort(CanonFields(fields))), fields)
    ensures SameOnto(Enumerated(Sort(CanonFields(fields))), fields)
    decreases fields
  {
    hide Canon, Same, Enumerated, Sort;
    var c, out := CanonFields(fields), Enumerated(Sort(CanonFields(fields)));
    forall i | 0 <= i < |out|
      ensures HasSame(out[i], fields)
    {
      assert out[i] in c;
      var j :| 0 <= j < |c| && c[j] == out[i];
      CanonIsSame(fields[j].value);
      assert SameField(out[i], fields[j]);
    }
    forall j | 0 <= j < |fields|
      ensures SameIn(out, fields[j])
    {
      assert c[j] in out;
      var i :| 0 <= i < |out| && out[i] == c[j];
      CanonIsSame(fields[j].value);
      assert SameField(out[i], fields[j]);
    }
  }

  lemma DistinctCons(f: Field, list: seq<Field>)
    ensures DistinctKeys([f] + list) <==> DistinctKeys(list) && forall x :: x in list ==> x.key != f.key
  {
    var g := [f] + list;
    if DistinctKeys(g) {
      forall i, j | 0 <= i < j < |list|
        ensures list[i].key != list[j].key
      {
        assert g[i + 1] == list[i] && g[j + 1] == list[j];
      }
      forall x | x in list
        ensures x.key != f.key
      {
        var i :| 0 <= i < |list| && list[i] == x;
        assert g[i + 1] == x && g[0] == f;
      }
    }
  }

  lemma {:induction false} InsertIndexDistinct(f: Field, list: seq<Field>)
    requires IsIndex(f.key) && forall x :: x in list ==> IsIndex(x.key)
    requires DistinctKeys([f] + list)
    ensures DistinctKeys(InsertIndex(f, list))
  {
    hide DistinctKeys, IsIndex;
    if list != [] && Number(f.key) >= Number(list[0].key) {
      var rest := list[1..];
      assert list == [list[0]] + rest;
      DistinctCons(f, list);
      DistinctCons(list[0], rest);
      DistinctCons(f, rest);
      InsertIndexDistinct(f, rest);
      assert list[0] in list;
      DistinctCons(list[0], InsertIndex(f, rest));
    } else if list == [] {
      assert [f] + list == [f];
    }
  }

  lemma {:induction false} IndicesDistinct(list: seq<Field>)
    requires DistinctKeys(list)
    ensures DistinctKeys(Indices(list))
  {
    if list != [] {
      var f, rest := list[0], list[1..];
      assert list == [f] + rest;
      DistinctCons(f, rest);
      IndicesDistinct(rest);
      if IsIndex(f.key) {
        DistinctCons(f, Indices(rest));
        InsertIndexDistinct(f, Indices(rest));
      }
    }
  }

  lemma {:induction false} OthersDistinct(list: seq<Field>)
    requires DistinctKeys(list)
    ensures DistinctKeys(Others(list))
  {
    if list != [] {
      var f, rest := list[0], list[1..];
      assert list == [f] + rest;
      DistinctCons(f, rest);
      OthersDistinct(rest);
      DistinctCons(f, Others(rest));
    }
  }

  lemma EnumeratedDistinct(list: seq<Field>)
    requires DistinctKeys(list)
    ensures DistinctKeys(Enumerated(list))
  {
    IndicesDistinct(list);
    OthersDistinct(list);
    var a, b := Indices(list), Others(list);
    forall i, j | 0 <= i < |a| && 0 <= j < |b|
      ensures a[i].key != b[j].key
    {
      assert a[i] in a && b[j] in b;
    }
  }

  lemma AscendingDistinct(list: seq<Field>)
    requires Ascending(list)
    ensures DistinctKeys(list)
  {
    forall i, j | 0 <= i < j < |list|
      ensures list[i].key != list[j].key
    {
      LessTotal(list[i].key, list[j].key);
    }
  }

  lemma CanonKeysDistinct(fields: seq<Field>)
    requires DistinctKeys(fields)
    ensures DistinctKeys(Enumerated(Sort(CanonFields(fields))))
  {
    hide Enumerated, Sort;
    SortAscends(CanonFields(fields));
    AscendingDistinct(Sort(CanonFields(fields)));
    EnumeratedDistinct(Sort(CanonFields(fields)));
  }

  /** The canonical value of a well-formed one is well-formed. */
  lemma {:induction false} CanonWellFormed(v: Json)
    requires WellFormed(v)
    ensures WellFormed(Canon(v))
    decreases v
  {
    hide Enumerated, Sort, DistinctKeys;
    match v
    case Arr(items) =>
      forall i | 0 <= i < |items|
        ensures WellFormed(CanonItems(items)[i])
      {
        CanonWellFormed(items[i]);
      }
    case Obj(fields) =>
      CanonKeysDistinct(fields);
      CanonFieldsWellFormed(fields);
    case _ =>
  }

  lemma {:induction false} CanonFieldsWellFormed(fields: seq<Field>)
    requires forall i :: 0 <= i < |fields| ==> WellFormed(fields[i].value)
    ensures var out := Enumerated(Sort(CanonFields(fields)));
      forall i :: 0 <= i < |out| ==> WellFormed(out[i].value)
    decreases fields
  {
    hide Enumerated, Sort, WellFormed, Canon;
    var c, out := CanonFields(fields), Enumerated(Sort(CanonFields(fields)));
    forall i | 0 <= i < |out|
      ensures WellFormed(out[i].value)
    {
      assert out[i] in c;
      var j :| 0 <= j < |c| && c[j] == out[i];
      CanonWellFormed(fields[j].value);
    }
  }

  /** Canonicalising twice is canonicalising once. */
  lemma CanonIdempotent(v: Json)
    requires WellFormed(v)
    ensures Canon(Canon(v)) == Canon(v)
  {
    CanonIsSame(v);
    CanonWellFormed(v);
    SameMeansCanonEqual(Canon(v), v);
  }

  // ---------------------------------------------------------------------------------------
  // JSON text.
  // ---------------------------------------------------------------------------------------

  const QUOTE: Unit := 34
  const BACKSLASH: Unit := 92
  const COMMA: Unit := 44
  const COLON: Unit := 58

  predicate IsLead(c: Unit) { 0xD800 <= c < 0xDC00 }

  predicate IsTrail(c: Unit) { 0xDC00 <= c < 0xE000 }

  function Hex(d: int): Unit
    requires 0 <= d < 16
  {
    if d < 10 then 48 + d else 87 + d
  }

  function Hex4(c: Unit): Text {
    [Hex(c / 4096), Hex(c / 256 % 16), Hex(c / 16 % 16), Hex(c % 16)]
  }

  /** The letter of a two-character escape, if there is one: \b \t \n \f \r and the two that stand for themselves. */
  function Letter(c: Unit): Unit {
    match c
    case 8 => 98
    case 9 => 116
    case 10 => 110
    case 12 => 102
    case 13 => 114
    case 34 => 34
    case 92 => 92
    case _ => 0
  }

  function Escaped(c: Unit): Text {
    if Letter(c) != 0 then [BACKSLASH, Letter(c)]
    else if c < 32 || IsLead(c) || IsTrail(c) then [BACKSLASH, 117] + Hex4(c)
    else [c]
  }

  /** How many units the first character takes: two for a surrogate pair. */
  function First(s: Text): (n: nat)
    requires s != []
    ensures 1 <= n <= |s|
  {
    if |s| > 1 && IsLead(s[0]) && IsTrail(s[1]) then 2 else 1
  }

  /** A pair stands for itself; what is not part of one is escaped. */
  function Word(s: Text): Text
    requires s != []
  {
    if First(s) == 2 then s[..2] else Escaped(s[0])
  }

  function Body(s: Text): Text {
    if s == [] then [] else Word(s) + Body(s[First(s)..])
  }

  function Quoted(s: Text): Text {
    [QUOTE] + Body(s) + [QUOTE]
  }

  function Print(v: Json): Text {
    match v
    case Null => [110, 117, 108, 108]
    case Bool(b) => if b then [116, 114, 117, 101] else [102, 97, 108, 115, 101]
    case Num(t) => t
    case Str(s) => Quoted(s)
    case Arr(items) => [91] + Items(items)
    case Obj(fields) => [123] + Fields(fields)
  }

  /** The items and the closing bracket. */
  function Items(items: seq<Json>): (t: Text)
    ensures t != []
  {
    if items == [] then [93] else Print(items[0]) + PrintItems(items[1..])
  }

  /** The fields and the closing brace. */
  function Fields(fields: seq<Field>): (t: Text)
    ensures t != []
  {
    if fields == [] then [125] else PrintField(fields[0]) + PrintFields(fields[1..])
  }

  /** The items after the first, and the closing bracket. */
  function PrintItems(items: seq<Json>): (t: Text)
    ensures t != []
  {
    if items == [] then [93] else [COMMA] + Print(items[0]) + PrintItems(items[1..])
  }

  function PrintField(f: Field): Text {
    Quoted(f.key) + [COLON] + Print(f.value)
  }

  function PrintFields(fields: seq<Field>): (t: Text)
    ensures t != []
  {
    if fields == [] then [125] else [COMMA] + PrintField(fields[0]) + PrintFields(fields[1..])
  }

  /** `deepStableArgsKey`. */
  function Key(args: Json): Text {
    Print(Canon(args))
  }

  // ---------------------------------------------------------------------------------------
  // No two values print the same.
  // ---------------------------------------------------------------------------------------

  lemma HexUnique(d: int, e: int)
    requires 0 <= d < 16 && 0 <= e < 16 && Hex(d) == Hex(e)
    ensures d == e
  {
  }

  lemma Digits(c: Unit)
    ensures c == 4096 * (c / 4096) + 256 * (c / 256 % 16) + 16 * (c / 16 % 16) + c % 16
  {
    var u, v := c / 16, c / 256;
    assert v == u / 16 && c / 4096 == v / 16;
    assert c == 16 * u + c % 16 && u == 16 * v + u % 16 && v == 16 * (v / 16) + v % 16;
  }

  lemma Hex4Unique(c: Unit, d: Unit)
    requires Hex4(c) == Hex4(d)
    ensures c == d
  {
    hide Hex;
    var a, b := Hex4(c), Hex4(d);
    assert a[0] == b[0] && a[1] == b[1] && a[2] == b[2] && a[3] == b[3];
    HexUnique(c / 4096, d / 4096);
    HexUnique(c / 256 % 16, d / 256 % 16);
    HexUnique(c / 16 % 16, d / 16 % 16);
    HexUnique(c % 16, d % 16);
    Digits(c);
    Digits(d);
  }

  /** Escapes are told apart, also with more text behind them. */
  lemma EscapedUnique(c: Unit, d: Unit, x: Text, y: Text)
    requires Escaped(c) + x == Escaped(d) + y
    ensures c == d && x == y
  {
    hide Hex4;
    var a, b := Escaped(c) + x, Escaped(d) + y;
    assert a[0] == b[0];
    assert x == a[|Escaped(c)|..] && y == b[|Escaped(d)|..];
    if |Escaped(c)| > 1 && |Escaped(d)| > 1 {
      assert a[1] == b[1];
      if Letter(c) == 0 {
        LongEscape(c, x);
        LongEscape(d, y);
        Hex4Unique(c, d);
      }
    }
  }

  lemma LongEscape(c: Unit, x: Text)
    requires Letter(c) == 0 && |Escaped(c)| > 1
    ensures (Escaped(c) + x)[2..6] == Hex4(c)
  {
  }

  lemma WordUnique(s: Text, t: Text, x: Text, y: Text)
    requires s != [] && t != [] && Word(s) + x == Word(t) + y
    ensures First(s) == First(t) && s[..First(s)] == t[..First(t)] && x == y
  {
    var a, b := Word(s) + x, Word(t) + y;
    assert a[0] == b[0];
    assert x == a[|Word(s)|..] && y == b[|Word(t)|..];
    if First(s) == 1 && First(t) == 1 {
      EscapedUnique(s[0], t[0], x, y);
    } else if First(s) == 2 && First(t) == 2 {
      assert a[..2] == s[..2] && b[..2] == t[..2];
    }
  }

  lemma WordNotQuote(s: Text)
    requires s != []
    ensures Word(s) != [] && Word(s)[0] != QUOTE
  {
  }

  /** The closing quote ends a string and nothing before it does. */
  lemma {:induction false} BodyUnique(s: Text, t: Text, x: Text, y: Text)
    requires Body(s) + [QUOTE] + x == Body(t) + [QUOTE] + y
    ensures s == t && x == y
    decreases |s| + |t|
  {
    hide Word, First;
    var a, b := Body(s) + [QUOTE] + x, Body(t) + [QUOTE] + y;
    if s == [] || t == [] {
      BodyEmpty(s, x);
      BodyEmpty(t, y);
      assert x == a[|Body(s)| + 1..] && y == b[|Body(t)| + 1..];
    } else {
      var u, v := s[First(s)..], t[First(t)..];
      assert a == Word(s) + (Body(u) + [QUOTE] + x);
      assert b == Word(t) + (Body(v) + [QUOTE] + y);
      WordUnique(s, t, Body(u) + [QUOTE] + x, Body(v) + [QUOTE] + y);
      BodyUnique(u, v, x, y);
      assert s == s[..First(s)] + u && t == t[..First(t)] + v;
    }
  }

  lemma BodyEmpty(s: Text, x: Text)
    ensures s == [] <==> (Body(s) + [QUOTE] + x)[0] == QUOTE
  {
    hide Word;
    if s != [] {
      WordNotQuote(s);
      assert Body(s)[0] == Word(s)[0];
      assert (Body(s) + [QUOTE] + x)[0] == Body(s)[0];
    }
  }

  lemma QuotedUnique(s: Text, t: Text, x: Text, y: Text)
    requires Quoted(s) + x == Quoted(t) + y
    ensures s == t && x == y
  {
    var a, b := Quoted(s) + x, Quoted(t) + y;
    assert a[1..] == Body(s) + [QUOTE] + x;
    assert b[1..] == Body(t) + [QUOTE] + y;
    BodyUnique(s, t, x, y);
  }

  /** What can follow a value: nothing, a comma, or a closing bracket. */
  predicate Ends(x: Text) {
    x == [] || x[0] == COMMA || x[0] == 93 || x[0] == 125
  }

  lemma NumberNotShorter(a: Text, b: Text, x: Text, y: Text)
    requires IsNumber(b) && Ends(x) && |a| < |b|
    ensures a + x != b + y
  {
    assert (b + y)[|a|] == b[|a|];
    assert x != [] ==> (a + x)[|a|] == x[0];
  }

  lemma NumberUnique(a: Text, b: Text, x: Text, y: Text)
    requires IsNumber(a) && IsNumber(b) && Ends(x) && Ends(y) && a + x == b + y
    ensures a == b && x == y
  {
    if |a| < |b| { NumberNotShorter(a, b, x, y); }
    if |b| < |a| { NumberNotShorter(b, a, y, x); }
    var c, d := a + x, b + y;
    assert a == c[..|a|] && b == d[..|b|] && x == c[|a|..] && y == d[|b|..];
  }

  /** The first unit of a value tells its kind. */
  function Kind(v: Json): int {
    match v
    case Null => 0
    case Bool(b) => if b then 1 else 2
    case Num(_) => 3
    case Str(_) => 4
    case Arr(_) => 5
    case Obj(_) => 6
  }

  function KindOf(c: Unit): int {
    if c == 110 then 0 else if c == 116 then 1 else if c == 102 then 2
    else if 48 <= c <= 57 || c == 45 then 3
    else if c == QUOTE then 4 else if c == 91 then 5 else if c == 123 then 6 else 7
  }

  lemma PrintBegins(v: Json)
    requires WellFormed(v)
    ensures Print(v) != [] && KindOf(Print(v)[0]) == Kind(v)
  {
  }

  lemma SameKind(a: Json, b: Json, x: Text, y: Text)
    requires WellFormed(a) && WellFormed(b) && Print(a) + x == Print(b) + y
    ensures Kind(a) == Kind(b)
  {
    hide Print, KindOf, Kind, WellFormed;
    PrintBegins(a);
    PrintBegins(b);
    assert (Print(a) + x)[0] == Print(a)[0];
    assert (Print(b) + y)[0] == Print(b)[0];
  }

  ghost predicate WellFormedItems(items: seq<Json>) {
    forall i :: 0 <= i < |items| ==> WellFormed(items[i])
  }

  ghost predicate WellFormedFields(fields: seq<Field>) {
    forall i :: 0 <= i < |fields| ==> WellFormed(fields[i].value)
  }

  /** Two values that print the same, whatever follows, are the same value. */
  lemma {:induction false} PrintUnique(a: Json, b: Json, x: Text, y: Text)
    requires WellFormed(a) && WellFormed(b) && Ends(x) && Ends(y)
    requires Print(a) + x == Print(b) + y
    ensures a == b && x == y
    decreases a, 1
  {
    hide Ends, Quoted, Items, Fields, IsNumber, Kind, KindOf;
    SameKind(a, b, x, y);
    match a
    case Num(t) =>
      KindFixes(a, b);
      NumberUnique(t, b.digits, x, y);
    case Str(s) =>
      KindFixes(a, b);
      QuotedUnique(s, b.s, x, y);
    case Arr(items) =>
      KindFixes(a, b);
      AfterFirst(91, Items(items), Items(b.items), x, y);
      ItemsUnique(items, b.items, x, y);
    case Obj(fields) =>
      KindFixes(a, b);
      AfterFirst(123, Fields(fields), Fields(b.fields), x, y);
      FieldsUnique(fields, b.fields, x, y);
    case _ =>
      KindFixes(a, b);
      assert x == (Print(a) + x)[|Print(a)|..] && y == (Print(b) + y)[|Print(b)|..];
  }

  lemma KindFixes(a: Json, b: Json)
    requires Kind(a) == Kind(b)
    ensures (a.Num? && b.Num?) || (a.Str? && b.Str?) || (a.Arr? && b.Arr?) || (a.Obj? && b.Obj?) ||
            (a == b && (a.Null? || a.Bool?))
  {
  }

  lemma AfterFirst(first: Unit, s: Text, t: Text, x: Text, y: Text)
    requires [first] + s + x == [first] + t + y
    ensures s + x == t + y
  {
    assert s + x == ([first] + s + x)[1..] && t + y == ([first] + t + y)[1..];
  }

  lemma {:induction false} ItemsUnique(a: seq<Json>, b: seq<Json>, x: Text, y: Text)
    requires WellFormedItems(a) && WellFormedItems(b) && Items(a) + x == Items(b) + y
    ensures a == b && x == y
    decreases a, 2
  {
    hide Print, WellFormed;
    var c, d := Items(a) + x, Items(b) + y;
    assert c[0] == d[0];
    if a == [] || b == [] {
      ItemsEmpty(a, x);
      ItemsEmpty(b, y);
      assert x == c[1..] && y == d[1..];
    } else {
      var u, v := PrintItems(a[1..]) + x, PrintItems(b[1..]) + y;
      assert c == Print(a[0]) + u && d == Print(b[0]) + v;
      PrintUnique(a[0], b[0], u, v);
      RestItemsUnique(a[1..], b[1..], x, y);
      assert a == [a[0]] + a[1..] && b == [b[0]] + b[1..];
    }
  }

  lemma ItemsEmpty(a: seq<Json>, x: Text)
    requires WellFormedItems(a)
    ensures a == [] <==> (Items(a) + x)[0] == 93
  {
    hide Print, WellFormed;
    if a != [] {
      PrintBegins(a[0]);
      assert (Items(a) + x)[0] == Print(a[0])[0];
    }
  }

  lemma {:induction false} RestItemsUnique(a: seq<Json>, b: seq<Json>, x: Text, y: Text)
    requires WellFormedItems(a) && WellFormedItems(b) && PrintItems(a) + x == PrintItems(b) + y
    ensures a == b && x == y
    decreases a, 2
  {
    hide Print, WellFormed;
    var c, d := PrintItems(a) + x, PrintItems(b) + y;
    assert c[0] == d[0];
    if a == [] || b == [] {
      assert x == c[1..] && y == d[1..];
    } else {
      var u, v := PrintItems(a[1..]) + x, PrintItems(b[1..]) + y;
      assert c[1..] == Print(a[0]) + u && d[1..] == Print(b[0]) + v;
      PrintUnique(a[0], b[0], u, v);
      RestItemsUnique(a[1..], b[1..], x, y);
      assert a == [a[0]] + a[1..] && b == [b[0]] + b[1..];
    }
  }

  lemma {:induction false} FieldUnique(f: Field, g: Field, x: Text, y: Text)
    requires WellFormed(f.value) && WellFormed(g.value) && Ends(x) && Ends(y)
    requires PrintField(f) + x == PrintField(g) + y
    ensures f == g && x == y
    decreases f, 2
  {
    hide Print, WellFormed, Quoted;
    var u, v := [COLON] + Print(f.value) + x, [COLON] + Print(g.value) + y;
    assert PrintField(f) + x == Quoted(f.key) + u && PrintField(g) + y == Quoted(g.key) + v;
    QuotedUnique(f.key, g.key, u, v);
    assert u[1..] == Print(f.value) + x && v[1..] == Print(g.value) + y;
    PrintUnique(f.value, g.value, x, y);
  }

  lemma FieldsEmpty(a: seq<Field>, x: Text)
    ensures a == [] <==> (Fields(a) + x)[0] == 125
  {
    hide Print;
    if a != [] {
      assert (Fields(a) + x)[0] == QUOTE;
    }
  }

  lemma {:induction false} FieldsUnique(a: seq<Field>, b: seq<Field>, x: Text, y: Text)
    requires WellFormedFields(a) && WellFormedFields(b) && Fields(a) + x == Fields(b) + y
    ensures a == b && x == y
    decreases a, 2
  {
    hide PrintField, PrintFields, WellFormed, Ends;
    FieldsEmpty(a, x);
    FieldsEmpty(b, y);
    assert (Fields(a) + x)[0] == (Fields(b) + y)[0];
    if a == [] || b == [] {
      assert Fields(a) + x == [125] + x && Fields(b) + y == [125] + y;
      assert x == (Fields(a) + x)[1..] && y == (Fields(b) + y)[1..];
    } else {
      var u, v := PrintFields(a[1..]) + x, PrintFields(b[1..]) + y;
      assert Fields(a) + x == PrintField(a[0]) + u && Fields(b) + y == PrintField(b[0]) + v;
      RestEnds(a[1..], x);
      RestEnds(b[1..], y);
      FieldUnique(a[0], b[0], u, v);
      RestFieldsUnique(a[1..], b[1..], x, y);
      assert a == [a[0]] + a[1..] && b == [b[0]] + b[1..];
    }
  }

  lemma RestEnds(a: seq<Field>, x: Text)
    ensures Ends(PrintFields(a) + x)
  {
    hide PrintField;
  }

  lemma {:induction false} RestFieldsUnique(a: seq<Field>, b: seq<Field>, x: Text, y: Text)
    requires WellFormedFields(a) && WellFormedFields(b) && PrintFields(a) + x == PrintFields(b) + y
    ensures a == b && x == y
    decreases a, 2
  {
    hide PrintField, WellFormed;
    var c, d := PrintFields(a) + x, PrintFields(b) + y;
    assert c[0] == d[0];
    if a == [] || b == [] {
      assert x == c[1..] && y == d[1..];
    } else {
      var u, v := PrintFields(a[1..]) + x, PrintFields(b[1..]) + y;
      assert c[1..] == PrintField(a[0]) + u && d[1..] == PrintField(b[0]) + v;
      FieldUnique(a[0], b[0], u, v);
      RestFieldsUnique(a[1..], b[1..], x, y);
      assert a == [a[0]] + a[1..] && b == [b[0]] + b[1..];
    }
  }

  // ---------------------------------------------------------------------------------------
  // The key decides equality up to key order.
  // ---------------------------------------------------------------------------------------

  /** Two argument values have one key exactly when they are equal up to key order at every depth. */
  lemma KeyDecides(a: Json, b: Json)
    requires WellFormed(a) && WellFormed(b)
    ensures Key(a) == Key(b) <==> Same(a, b)
  {
    hide Canon, Print, Same, WellFormed;
    CanonWellFormed(a);
    CanonWellFormed(b);
    if Key(a) == Key(b) {
      PrintUnique(Canon(a), Canon(b), [], []);
      CanonEqualMeansSame(a, b);
    }
    if Same(a, b) {
      SameMeansCanonEqual(a, b);
    }
  }

  // ---------------------------------------------------------------------------------------
  // The text an external call is identified by.
  // ---------------------------------------------------------------------------------------

  const NUL: Unit := 0

  ghost predicate NoNul(t: Text) {
    forall i :: 0 <= i < |t| ==> t[i] != NUL
  }

  lemma WordNoNul(s: Text)
    requires s != []
    ensures NoNul(Word(s))
  {
  }

  lemma {:induction false} BodyNoNul(s: Text)
    ensures NoNul(Body(s))
    decreases |s|
  {
    hide Word;
    if s != [] {
      WordNoNul(s);
      BodyNoNul(s[First(s)..]);
    }
  }

  /** JSON text holds no raw NUL, whatever the strings in it hold. */
  lemma {:induction false} PrintNoNul(v: Json)
    requires WellFormed(v)
    ensures NoNul(Print(v))
    decreases v, 1
  {
    match v
    case Str(s) => BodyNoNul(s);
    case Arr(items) =>
      if items != [] {
        PrintNoNul(items[0]);
        ItemsNoNul(items[1..]);
      }
    case Obj(fields) =>
      if fields != [] {
        FieldNoNul(fields[0]);
        FieldsNoNul(fields[1..]);
      }
    case _ =>
  }

  lemma {:induction false} ItemsNoNul(items: seq<Json>)
    requires WellFormedItems(items)
    ensures NoNul(PrintItems(items))
    decreases items, 2
  {
    if items != [] {
      PrintNoNul(items[0]);
      ItemsNoNul(items[1..]);
    }
  }

  lemma {:induction false} FieldNoNul(f: Field)
    requires WellFormed(f.value)
    ensures NoNul(PrintField(f))
    decreases f, 2
  {
    BodyNoNul(f.key);
    PrintNoNul(f.value);
  }

  lemma {:induction false} FieldsNoNul(fields: seq<Field>)
    requires WellFormedFields(fields)
    ensures NoNul(PrintFields(fields))
    decreases fields, 2
  {
    if fields != [] {
      FieldNoNul(fields[0]);
      FieldsNoNul(fields[1..]);
    }
  }

  /** What `externalToolCallId` hashes. */
  function Prehash(toolName: Text, args: Json): Text {
    toolName + [NUL] + Key(args)
  }

  lemma LastNulNotLater(n: Text, m: Text, s: Text, t: Text)
    requires NoNul(s) && |n| < |m|
    ensures n + [NUL] + s != m + [NUL] + t
  {
    assert (m + [NUL] + t)[|m|] == NUL;
    assert |m| - |n| - 1 < |s| ==> (n + [NUL] + s)[|m|] == s[|m| - |n| - 1];
  }

  lemma LastNulSplits(n: Text, m: Text, s: Text, t: Text)
    requires NoNul(s) && NoNul(t) && n + [NUL] + s == m + [NUL] + t
    ensures n == m && s == t
  {
    if |n| < |m| { LastNulNotLater(n, m, s, t); }
    if |m| < |n| { LastNulNotLater(m, n, t, s); }
    var a, b := n + [NUL] + s, m + [NUL] + t;
    assert n == a[..|n|] && m == b[..|m|] && s == a[|n| + 1..] && t == b[|m| + 1..];
  }

  /** Two external calls are identified by one text exactly when the tool is the same and the arguments
      are the same up to key order, also when a tool's name holds a NUL. */
  lemma PrehashDecides(n: Text, m: Text, a: Json, b: Json)
    requires WellFormed(a) && WellFormed(b)
    ensures Prehash(n, a) == Prehash(m, b) <==> n == m && Same(a, b)
  {
    hide Canon, Print, Same, WellFormed;
    CanonWellFormed(a);
    CanonWellFormed(b);
    PrintNoNul(Canon(a));
    PrintNoNul(Canon(b));
    KeyDecides(a, b);
    if Prehash(n, a) == Prehash(m, b) {
      LastNulSplits(n, m, Key(a), Key(b));
    }
  }
}
