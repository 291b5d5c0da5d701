/** What an accepted value is handed on as, and where the issues of a refused one lie. */
module ValidationProperties {
  import opened Utf16
  import opened CanonicalJson
  import opened JsonParser
  import opened Validation
  import C = CanonicalForm

  // ---------------------------------------------------------------- accepted values

  /** An accepted value is handed on as an equal one, which is accepted again and handed on unchanged. */
  ghost predicate Kept(schema: Schema, value: Option<Json>)
  {
    var next := Normal(schema, value);
    && (value.None? ==> next.None?)
    && (value.Some? ==> next.Some? && C.Same(value.value, next.value) && Proper(next.value))
    && Conforms(schema, next) && Normal(schema, next) == next
  }

  lemma {:induction false} SameReflexive(v: Json)
    requires Proper(v)
    ensures C.Same(v, v)
  {
    match v
    case Arr(items) =>
      forall i | 0 <= i < |items| ensures C.Same(items[i], items[i]) { SameReflexive(items[i]); }
    case Obj(fields) =>
      forall i | 0 <= i < |fields|
        ensures Has(fields, fields[i].key) && C.Same(fields[i].value, Get(fields, fields[i].key))
      {
        GetAt(fields, i);
        SameReflexive(fields[i].value);
      }
    case _ =>
  }

  lemma {:induction false} NormalItemsAt(item: Schema, items: seq<Json>)
    requires forall i | 0 <= i < |items| :: Normal(item, Some(items[i])).Some?
    ensures |NormalItems(item, items)| == |items|
    ensures forall i | 0 <= i < |items| :: Some(NormalItems(item, items)[i]) == Normal(item, Some(items[i]))
  {
    if items != [] {
      var n := |items| - 1;
      assert forall i | 0 <= i < n :: items[..n][i] == items[i];
      NormalItemsAt(item, items[..n]);
    }
  }

  lemma ArrayKept(schema: Schema, items: seq<Json>)
    requires schema.Of? && schema.kind.ArrayKind? && Conforms(schema, Some(Arr(items)))
    requires forall i | 0 <= i < |items| :: Kept(schema.kind.item, Some(items[i]))
    ensures Kept(schema, Some(Arr(items)))
  {
    var item := schema.kind.item;
    forall i | 0 <= i < |items| ensures Normal(item, Some(items[i])).Some? {
      assert Kept(item, Some(items[i]));
    }
    NormalItemsAt(item, items);
    var next := NormalItems(item, items);
    forall i | 0 <= i < |next|
      ensures C.Same(items[i], next[i]) && Proper(next[i]) && Conforms(item, Some(next[i]))
              && Normal(item, Some(next[i])) == Some(next[i])
    {
      assert Kept(item, Some(items[i]));
    }
    NormalItemsAt(item, next);
    assert NormalItems(item, next) == next;
  }

  // Objects: the fields that are handed on.

  lemma InFields(fields: seq<Field>, f: Field)
    requires Distinct(Keys(fields)) && f in fields
    ensures Has(fields, f.key) && Get(fields, f.key) == f.value && Lookup(fields, f.key) == Some(f.value)
  {
    var i :| 0 <= i < |fields| && fields[i] == f;
    GetAt(fields, i);
  }

  lemma LookupIsIn(fields: seq<Field>, key: Str)
    ensures Lookup(fields, key).Some? ==> Field(key, Lookup(fields, key).value) in fields
    ensures Lookup(fields, key).None? ==> forall f | f in fields :: f.key != key
  {
  }

  /** The value that entry i of a shape hands on. */
  function Passed(shape: seq<Entry>, fields: seq<Field>, i: nat): Option<Json>
    requires i < |shape|
  {
    Normal(shape[i].schema, Lookup(fields, shape[i].key))
  }

  predicate DistinctShape(shape: seq<Entry>)
  {
    forall i, j | 0 <= i < j < |shape| :: shape[i].key != shape[j].key
  }

  lemma KeyIsNew(shape: seq<Entry>, fields: seq<Field>, n: nat, before: seq<Field>)
    requires DistinctShape(shape) && 0 < n <= |shape|
    requires forall f | f in before ::
               exists i: nat | i < n - 1 :: f.key == shape[i].key && Passed(shape, fields, i) == Some(f.value)
    ensures forall f | f in before :: f.key != shape[n - 1].key
  {
    forall f | f in before ensures f.key != shape[n - 1].key {
      var i: nat :| i < n - 1 && f.key == shape[i].key && Passed(shape, fields, i) == Some(f.value);
    }
  }

  lemma {:induction false} NormalShapeHolds(schema: Schema, n: nat, fields: seq<Field>)
    requires schema.Of? && schema.kind.ObjectKind? && n <= |schema.kind.shape| && DistinctShape(schema.kind.shape)
    ensures var shape, r := schema.kind.shape, NormalShape(schema, n, fields);
            && (forall f | f in r ::
                  exists i: nat | i < n :: f.key == shape[i].key && Passed(shape, fields, i) == Some(f.value))
            && (forall i: nat | i < n && Passed(shape, fields, i).Some? ::
                Field(shape[i].key, Passed(shape, fields, i).value) in r)
            && Distinct(Keys(r))
    decreases n
  {
    if n > 0 {
      var shape := schema.kind.shape;
      NormalShapeHolds(schema, n - 1, fields);
      var before, r := NormalShape(schema, n - 1, fields), NormalShape(schema, n, fields);
      KeyIsNew(shape, fields, n, before);
      forall f | f in r
        ensures exists i: nat | i < n :: f.key == shape[i].key && Passed(shape, fields, i) == Some(f.value)
      {
        if f in before {
          var i: nat :| i < n - 1 && f.key == shape[i].key && Passed(shape, fields, i) == Some(f.value);
        } else {
          assert Passed(shape, fields, n - 1) == Some(f.value);
        }
      }
      AppendDistinct(before, r);
    }
  }

  lemma AppendDistinct(before: seq<Field>, r: seq<Field>)
    requires Distinct(Keys(before)) && (r == before || (|r| == |before| + 1 && r[..|before|] == before))
    requires r != before ==> forall f | f in before :: f.key != r[|before|].key
    ensures Distinct(Keys(r))
  {
    if r != before {
      assert forall i | 0 <= i < |before| :: r[i] == before[i] && before[i] in before;
    }
  }

  lemma {:induction false} UnknownFieldsHold(shape: seq<Entry>, fields: seq<Field>)
    requires Distinct(Keys(fields))
    ensures forall f :: f in UnknownFields(shape, fields) <==> f in fields && !InShape(shape, f.key)
    ensures Distinct(Keys(UnknownFields(shape, fields)))
  {
    if fields != [] {
      var n := |fields| - 1;
      var front := fields[..n];
      assert Keys(front) == Keys(fields)[..n];
      UnknownFieldsHold(shape, front);
      assert fields == front + [fields[n]];
      forall f | f in UnknownFields(shape, front) ensures f.key != fields[n].key {
        var k :| 0 <= k < n && fields[k] == f;
        assert Keys(fields)[k] != Keys(fields)[n];
      }
      AppendDistinct(UnknownFields(shape, front), UnknownFields(shape, fields));
    }
  }

  /** The fields of a handed-on object: those of the shape, then the unknown ones. */
  function NextFields(schema: Schema, fields: seq<Field>): seq<Field>
    requires schema.Of? && schema.kind.ObjectKind?
  {
    NormalShape(schema, |schema.kind.shape|, fields)
      + if schema.kind.allowUnknown then UnknownFields(schema.kind.shape, fields) else []
  }

  lemma DistinctConcat(a: seq<Field>, b: seq<Field>)
    requires Distinct(Keys(a)) && Distinct(Keys(b)) && forall f, g | f in a && g in b :: f.key != g.key
    ensures Distinct(Keys(a + b))
  {
    var keys := Keys(a + b);
    forall i, j | 0 <= i < j < |keys| ensures keys[i] != keys[j] {
      if j < |a| {
        assert keys[i] == Keys(a)[i] && keys[j] == Keys(a)[j];
      } else if i >= |a| {
        assert keys[i] == Keys(b)[i - |a|] && keys[j] == Keys(b)[j - |a|];
      } else {
        assert (a + b)[i] in a && (a + b)[j] in b;
      }
    }
  }

  lemma NextDistinct(schema: Schema, fields: seq<Field>)
    requires schema.Of? && schema.kind.ObjectKind? && DistinctShape(schema.kind.shape) && Distinct(Keys(fields))
    ensures Distinct(Keys(NextFields(schema, fields)))
  {
    var shape := schema.kind.shape;
    NormalShapeHolds(schema, |shape|, fields);
    UnknownFieldsHold(shape, fields);
    DistinctConcat(NormalShape(schema, |shape|, fields),
                   if schema.kind.allowUnknown then UnknownFields(shape, fields) else []);
  }

  /** Looking up a key of the shape in the handed-on object gives what its entry handed on. */
  lemma NextLookup(schema: Schema, fields: seq<Field>, i: nat)
    requires schema.Of? && schema.kind.ObjectKind? && DistinctShape(schema.kind.shape) && Distinct(Keys(fields))
    requires i < |schema.kind.shape|
    ensures Lookup(NextFields(schema, fields), schema.kind.shape[i].key) == Passed(schema.kind.shape, fields, i)
  {
    var shape, next := schema.kind.shape, NextFields(schema, fields);
    var key, passed := shape[i].key, Passed(shape, fields, i);
    NormalShapeHolds(schema, |shape|, fields);
    UnknownFieldsHold(shape, fields);
    NextDistinct(schema, fields);
    if passed.Some? {
      InFields(next, Field(key, passed.value));
    } else if Lookup(next, key).Some? {
      LookupIsIn(next, key);
      var f := Field(key, Lookup(next, key).value);
      assert f in NormalShape(schema, |shape|, fields);
    }
  }

  /** Looking up any other key gives what the original has, if unknown fields are allowed. */
  lemma NextUnknown(schema: Schema, fields: seq<Field>, f: Field)
    requires schema.Of? && schema.kind.ObjectKind? && DistinctShape(schema.kind.shape) && Distinct(Keys(fields))
    requires schema.kind.allowUnknown && f in fields && !InShape(schema.kind.shape, f.key)
    ensures Lookup(NextFields(schema, fields), f.key) == Some(f.value)
  {
    UnknownFieldsHold(schema.kind.shape, fields);
    NextDistinct(schema, fields);
    InFields(NextFields(schema, fields), f);
  }

  /** All entries of the shape keep their values, and there are no unknown fields unless allowed. */
  ghost predicate EntriesKept(schema: Schema, fields: seq<Field>)
    requires schema.Of? && schema.kind.ObjectKind?
  {
    && DistinctShape(schema.kind.shape) && Distinct(Keys(fields)) && (forall f | f in fields :: Proper(f.value))
    && (forall i | 0 <= i < |schema.kind.shape| ::
        Kept(schema.kind.shape[i].schema, Lookup(fields, schema.kind.shape[i].key)))
    && (schema.kind.allowUnknown || forall f | f in fields :: InShape(schema.kind.shape, f.key))
  }

  lemma FieldKept(schema: Schema, fields: seq<Field>, f: Field)
    requires schema.Of? && schema.kind.ObjectKind? && EntriesKept(schema, fields) && f in fields
    ensures var found := Lookup(NextFields(schema, fields), f.key); found.Some? && C.Same(f.value, found.value)
  {
    var shape := schema.kind.shape;
    InFields(fields, f);
    if InShape(shape, f.key) {
      var i :| 0 <= i < |shape| && shape[i].key == f.key;
      NextLookup(schema, fields, i);
      assert Kept(shape[i].schema, Lookup(fields, shape[i].key));
    } else {
      NextUnknown(schema, fields, f);
      SameReflexive(f.value);
    }
  }

  /** Every handed-on field comes from a field with its key, and is proper. */
  lemma NextFieldFrom(schema: Schema, fields: seq<Field>, g: Field)
    requires schema.Of? && schema.kind.ObjectKind? && EntriesKept(schema, fields) && g in NextFields(schema, fields)
    ensures Has(fields, g.key) && Proper(g.value)
  {
    var shape := schema.kind.shape;
    NormalShapeHolds(schema, |shape|, fields);
    UnknownFieldsHold(shape, fields);
    if g in NormalShape(schema, |shape|, fields) {
      var i: nat :| i < |shape| && g.key == shape[i].key && Passed(shape, fields, i) == Some(g.value);
      assert Kept(shape[i].schema, Lookup(fields, shape[i].key));
    } else {
      assert g in fields;
    }
  }

  lemma SameKeysSameLength(a: seq<Field>, b: seq<Field>)
    requires Distinct(Keys(a)) && Distinct(Keys(b))
    requires (forall f | f in a :: Has(b, f.key)) && (forall g | g in b :: Has(a, g.key))
    ensures |a| == |b|
  {
    C.DistinctCardinality(Keys(a));
    C.DistinctCardinality(Keys(b));
    forall k ensures k in Keys(a) <==> k in Keys(b) {
      KeyOfField(a, k);
      KeyOfField(b, k);
    }
    assert C.ToSet(Keys(a)) == C.ToSet(Keys(b));
  }

  lemma KeyOfField(fields: seq<Field>, k: Str)
    ensures k in Keys(fields) <==> Has(fields, k)
    ensures Has(fields, k) ==> exists f :: f in fields && f.key == k
  {
    if k in Keys(fields) {
      var i :| 0 <= i < |fields| && Keys(fields)[i] == k;
    }
    if Has(fields, k) {
      var i :| 0 <= i < |fields| && fields[i].key == k;
      assert Keys(fields)[i] == k && fields[i] in fields;
    }
  }

  lemma ObjectSame(schema: Schema, fields: seq<Field>)
    requires schema.Of? && schema.kind.ObjectKind? && EntriesKept(schema, fields)
    ensures C.Same(Obj(fields), Obj(NextFields(schema, fields))) && Proper(Obj(NextFields(schema, fields)))
  {
    var next := NextFields(schema, fields);
    NextDistinct(schema, fields);
    forall f | f in fields ensures Has(next, f.key) && C.Same(f.value, Get(next, f.key)) {
      FieldKept(schema, fields, f);
    }
    forall g | g in next ensures Has(fields, g.key) && Proper(g.value) {
      NextFieldFrom(schema, fields, g);
    }
    SameKeysSameLength(fields, next);
  }

  lemma {:induction false} ShapeAgain(schema: Schema, n: nat, fields: seq<Field>)
    requires schema.Of? && schema.kind.ObjectKind? && EntriesKept(schema, fields) && n <= |schema.kind.shape|
    ensures NormalShape(schema, n, NextFields(schema, fields)) == NormalShape(schema, n, fields)
    decreases n
  {
    if n > 0 {
      ShapeAgain(schema, n - 1, fields);
      NextLookup(schema, fields, n - 1);
      assert Kept(schema.kind.shape[n - 1].schema, Lookup(fields, schema.kind.shape[n - 1].key));
    }
  }

  lemma {:induction false} UnknownAgain(shape: seq<Entry>, known: seq<Field>, unknown: seq<Field>)
    requires (forall f | f in known :: InShape(shape, f.key)) && forall f | f in unknown :: !InShape(shape, f.key)
    ensures UnknownFields(shape, known + unknown) == unknown
    decreases |known| + |unknown|
  {
    if unknown != [] {
      var n := |unknown| - 1;
      assert (known + unknown)[..|known + unknown| - 1] == known + unknown[..n];
      assert (known + unknown)[|known + unknown| - 1] == unknown[n] && unknown[n] in unknown;
      UnknownAgain(shape, known, unknown[..n]);
    } else if known != [] {
      var n := |known| - 1;
      assert known + unknown == known && known[n] in known && known[..n] + [] == known[..n];
      UnknownAgain(shape, known[..n], []);
    }
  }

  lemma ObjectAgain(schema: Schema, fields: seq<Field>)
    requires schema.Of? && schema.kind.ObjectKind? && EntriesKept(schema, fields)
    ensures NextFields(schema, NextFields(schema, fields)) == NextFields(schema, fields)
  {
    var shape := schema.kind.shape;
    ShapeAgain(schema, |shape|, fields);
    NormalShapeHolds(schema, |shape|, fields);
    UnknownFieldsHold(shape, fields);
    var known := NormalShape(schema, |shape|, fields);
    forall f | f in known ensures InShape(shape, f.key) {
      var i: nat :| i < |shape| && f.key == shape[i].key && Passed(shape, fields, i) == Some(f.value);
    }
    if schema.kind.allowUnknown {
      UnknownAgain(shape, known, UnknownFields(shape, fields));
    }
  }

  lemma ObjectConforms(schema: Schema, fields: seq<Field>)
    requires schema.Of? && schema.kind.ObjectKind? && EntriesKept(schema, fields)
    ensures Conforms(schema, Some(Obj(NextFields(schema, fields))))
  {
    var shape, next := schema.kind.shape, NextFields(schema, fields);
    forall i | 0 <= i < |shape| ensures Conforms(shape[i].schema, Lookup(next, shape[i].key)) {
      NextLookup(schema, fields, i);
      assert Kept(shape[i].schema, Lookup(fields, shape[i].key));
    }
    if !schema.kind.allowUnknown {
      forall i | 0 <= i < |next| ensures InShape(shape, next[i].key) {
        NextFieldFrom(schema, fields, next[i]);
        KeyOfField(fields, next[i].key);
      }
    }
  }

  lemma ObjectKept(schema: Schema, fields: seq<Field>)
    requires schema.Of? && schema.kind.ObjectKind? && EntriesKept(schema, fields)
    ensures Kept(schema, Some(Obj(fields)))
  {
    ObjectSame(schema, fields);
    ObjectAgain(schema, fields);
    ObjectConforms(schema, fields);
  }

  lemma {:induction false} AcceptedKept(schema: Schema, value: Option<Json>)
    requires WellFormed(schema) && Conforms(schema, value) && (value.Some? ==> Proper(value.value))
    ensures Kept(schema, value)
    decreases schema
  {
    match schema
    case Optional(inner) => if value.Some? { AcceptedKept(inner, value); }
    case Of(kind, _) =>
      if kind.ArrayKind? && value.value.Arr? {
        var items := value.value.items;
        forall i | 0 <= i < |items| ensures Kept(kind.item, Some(items[i])) {
          AcceptedKept(kind.item, Some(items[i]));
        }
        ArrayKept(schema, items);
      } else if kind.ObjectKind? && value.value.Obj? {
        var shape, fields := kind.shape, value.value.fields;
        forall i | 0 <= i < |shape| ensures Kept(shape[i].schema, Lookup(fields, shape[i].key)) {
          LookupProper(fields, shape[i].key);
          AcceptedKept(shape[i].schema, Lookup(fields, shape[i].key));
        }
        ObjectKept(schema, fields);
      } else {
        SameReflexive(value.value);
      }
  }

  lemma LookupProper(fields: seq<Field>, key: Str)
    requires forall i | 0 <= i < |fields| :: Proper(fields[i].value)
    ensures Lookup(fields, key).Some? ==> Proper(Lookup(fields, key).value)
  {
    LookupIsIn(fields, key);
  }

  /** An accepted value is handed on deeply equal, and validating what is handed on accepts it and
      changes nothing. */
  lemma AcceptedUnchanged(schema: Schema, v: JsonValue, path: seq<Str>)
    requires WellFormed(schema) && Validate(schema, Some(v), path).ok
    ensures var r := Validate(schema, Some(v), path);
            && r.value.Some? && C.Same(v, r.value.value)
            && Validate(schema, r.value, path) == r
  {
    Exact(schema, Some(v), path);
    AcceptedKept(schema, Some(v));
    Exact(schema, Normal(schema, Some(v)), path);
  }

  // ---------------------------------------------------------------- where issues lie

  ghost predicate UnderItem(path: seq<Str>, n: nat, x: Issue)
  {
    exists i: nat | i < n :: path + [NatText(i)] <= x.path
  }

  lemma {:induction false} ItemIssuesUnder(item: Schema, items: seq<Json>, path: seq<Str>)
    ensures forall x | x in ItemIssues(item, items, path) :: UnderItem(path, |items|, x)
    decreases item, 2, |items|
  {
    if items != [] {
      var n := |items| - 1;
      ItemIssuesUnder(item, items[..n], path);
      IssuesUnder(item, Some(items[n]), path + [NatText(n)]);
      forall x | x in ItemIssues(item, items, path) ensures UnderItem(path, |items|, x) {
        if x in ItemIssues(item, items[..n], path) {
          assert UnderItem(path, n, x);
        } else {
          assert path + [NatText(n)] <= x.path;
        }
      }
    }
  }

  lemma {:induction false} ShapeIssuesUnder(schema: Schema, n: nat, fields: seq<Field>, path: seq<Str>)
    requires schema.Of? && schema.kind.ObjectKind? && n <= |schema.kind.shape|
    ensures forall x | x in ShapeIssues(schema, n, fields, path) ::
              exists i: nat | i < n :: path + [schema.kind.shape[i].key] <= x.path
    decreases schema, 0, n
  {
    if n > 0 {
      var e := schema.kind.shape[n - 1];
      ShapeIssuesUnder(schema, n - 1, fields, path);
      IssuesUnder(e.schema, Lookup(fields, e.key), path + [e.key]);
      forall x | x in ShapeIssues(schema, n, fields, path)
        ensures exists i: nat | i < n :: path + [schema.kind.shape[i].key] <= x.path
      {
        if x in ShapeIssues(schema, n - 1, fields, path) {
          var i: nat :| i < n - 1 && path + [schema.kind.shape[i].key] <= x.path;
        } else {
          assert path + [schema.kind.shape[n - 1].key] <= x.path;
        }
      }
    }
  }

  lemma {:induction false} UnknownIssuesAre(shape: seq<Entry>, fields: seq<Field>, path: seq<Str>, x: Issue)
    ensures x in UnknownIssues(shape, fields, path) <==>
            exists i | 0 <= i < |fields| ::
              !InShape(shape, fields[i].key) && x == Issue(path + [fields[i].key], UnknownField)
  {
    if fields != [] {
      var n := |fields| - 1;
      UnknownIssuesAre(shape, fields[..n], path, x);
      assert forall i | 0 <= i < n :: fields[..n][i] == fields[i];
    }
  }

  /** Every issue lies at or under the path of the value it is about. */
  lemma {:induction false} IssuesUnder(schema: Schema, value: Option<Json>, path: seq<Str>)
    ensures forall x | x in Issues(schema, value, path) :: path <= x.path
    decreases schema, 1, 0
  {
    match schema
    case Optional(inner) => if value.Some? { IssuesUnder(inner, value, path); }
    case Of(ArrayKind(item, _, _), _) =>
      if value.Some? && value.value.Arr? {
        ItemIssuesUnder(item, value.value.items, path);
      }
    case Of(ObjectKind(shape, _), _) =>
      if value.Some? && value.value.Obj? {
        ShapeIssuesUnder(schema, |shape|, value.value.fields, path);
        forall x | x in UnknownIssues(shape, value.value.fields, path) ensures path <= x.path {
          UnknownIssuesAre(shape, value.value.fields, path, x);
        }
      }
    case _ =>
  }

  lemma OneSegment(path: seq<Str>, k: Str, k': Str, p: seq<Str>)
    requires path + [k] <= p && path + [k'] <= p
    ensures k == k'
  {
    assert (path + [k])[|path|] == p[|path|] == (path + [k'])[|path|];
  }

  lemma {:induction false} ItemIssuesAt(item: Schema, items: seq<Json>, path: seq<Str>, i: nat, x: Issue)
    requires i < |items| && path + [NatText(i)] <= x.path
    ensures x in ItemIssues(item, items, path) <==> x in Issues(item, Some(items[i]), path + [NatText(i)])
    decreases |items|
  {
    var n := |items| - 1;
    if i < n {
      ItemIssuesAt(item, items[..n], path, i, x);
      IssuesUnder(item, Some(items[n]), path + [NatText(n)]);
      if x in Issues(item, Some(items[n]), path + [NatText(n)]) {
        SameIndex(path, i, n, x.path);
      }
    } else {
      ItemIssuesUnder(item, items[..n], path);
      if x in ItemIssues(item, items[..n], path) {
        assert UnderItem(path, n, x);
        var j: nat :| j < n && path + [NatText(j)] <= x.path;
        SameIndex(path, i, j, x.path);
      }
    }
  }

  lemma SameIndex(path: seq<Str>, i: nat, j: nat, p: seq<Str>)
    requires path + [NatText(i)] <= p && path + [NatText(j)] <= p
    ensures i == j
  {
    OneSegment(path, NatText(i), NatText(j), p);
    NatRoundTrip(i);
    NatRoundTrip(j);
  }

  lemma {:induction false} ShapeIssuesAt(schema: Schema, n: nat, fields: seq<Field>, path: seq<Str>, i: nat, x: Issue)
    requires schema.Of? && schema.kind.ObjectKind? && i < n <= |schema.kind.shape| && DistinctShape(schema.kind.shape)
    requires path + [schema.kind.shape[i].key] <= x.path
    ensures var e := schema.kind.shape[i];
            x in ShapeIssues(schema, n, fields, path) <==> x in Issues(e.schema, Lookup(fields, e.key), path + [e.key])
    decreases n
  {
    var shape := schema.kind.shape;
    var e := shape[n - 1];
    if i < n - 1 {
      ShapeIssuesAt(schema, n - 1, fields, path, i, x);
      IssuesUnder(e.schema, Lookup(fields, e.key), path + [e.key]);
      if x in Issues(e.schema, Lookup(fields, e.key), path + [e.key]) {
        OneSegment(path, shape[i].key, e.key, x.path);
      }
    } else {
      ShapeIssuesUnder(schema, n - 1, fields, path);
      if x in ShapeIssues(schema, n - 1, fields, path) {
        var j: nat :| j < n - 1 && path + [shape[j].key] <= x.path;
        OneSegment(path, shape[i].key, shape[j].key, x.path);
      }
    }
  }

  /** The issues at or under an element of an array are the element's own. */
  lemma ElementIssues(schema: Schema, items: seq<Json>, path: seq<Str>, i: nat, x: Issue)
    requires schema.Of? && schema.kind.ArrayKind? && i < |items| && path + [NatText(i)] <= x.path
    ensures x in Issues(schema, Some(Arr(items)), path) <==>
            x in Issues(schema.kind.item, Some(items[i]), path + [NatText(i)])
  {
    ItemIssuesAt(schema.kind.item, items, path, i, x);
    assert forall y | y in LengthIssues(|items|, schema.kind.minLength, schema.kind.maxLength, path) :: y.path == path;
  }

  /** The issues at or under a property that the shape knows are the property's own. */
  lemma PropertyIssues(schema: Schema, fields: seq<Field>, path: seq<Str>, i: nat, x: Issue)
    requires schema.Of? && schema.kind.ObjectKind? && DistinctShape(schema.kind.shape) && i < |schema.kind.shape|
    requires path + [schema.kind.shape[i].key] <= x.path
    ensures var e := schema.kind.shape[i];
            x in Issues(schema, Some(Obj(fields)), path) <==>
              x in Issues(e.schema, Lookup(fields, e.key), path + [e.key])
  {
    var shape := schema.kind.shape;
    ShapeIssuesAt(schema, |shape|, fields, path, i, x);
    UnknownIssuesAre(shape, fields, path, x);
    if x in UnknownIssues(shape, fields, path) {
      var j :| 0 <= j < |fields| && !InShape(shape, fields[j].key) && x == Issue(path + [fields[j].key], UnknownField);
      OneSegment(path, shape[i].key, fields[j].key, x.path);
    }
  }

  // Deep inside a value.

  function IndexOfEntry(shape: seq<Entry>, key: Str): (i: nat)
    requires InShape(shape, key)
    ensures i < |shape| && shape[i].key == key
  {
    if shape[0].key == key then 0 else IndexOfEntry(shape[1..], key) + 1
  }

  /** The index that a path segment names in an array of that length. */
  function IndexNamed(segment: Str, length: nat): (r: Option<nat>)
    ensures r.Some? ==> r.value < length && NatText(r.value) == segment
  {
    if length == 0 then None
    else if NatText(length - 1) == segment then Some(length - 1)
    else IndexNamed(segment, length - 1)
  }

  /** The schema and the value at a path inside a value, where the schema describes one. */
  function At(schema: Schema, value: Option<Json>, segments: seq<Str>): Option<(Schema, Option<Json>)>
    decreases |segments|, schema
  {
    match schema
    case Optional(inner) =>
      if segments == [] then Some((schema, value)) else if value.None? then None else At(inner, value, segments)
    case Of(kind, _) =>
      if segments == [] then Some((schema, value))
      else if kind.ArrayKind? && value.Some? && value.value.Arr? then
        var i := IndexNamed(segments[0], |value.value.items|);
        if i.None? then None else At(kind.item, Some(value.value.items[i.value]), segments[1..])
      else if kind.ObjectKind? && value.Some? && value.value.Obj? && InShape(kind.shape, segments[0]) then
        At(kind.shape[IndexOfEntry(kind.shape, segments[0])].schema, Lookup(value.value.fields, segments[0]),
           segments[1..])
      else None
  }

  lemma {:induction false} IssuesAt(schema: Schema, value: Option<Json>, segments: seq<Str>, path: seq<Str>, x: Issue)
    requires WellFormed(schema) && At(schema, value, segments).Some? && path + segments <= x.path
    ensures var (s, v) := At(schema, value, segments).value;
            x in Issues(schema, value, path) <==> x in Issues(s, v, path + segments)
    decreases |segments|, schema
  {
    if segments == [] {
      assert path + segments == path;
    } else {
      assert path + segments == path + [segments[0]] + segments[1..];
      assert path + [segments[0]] == x.path[..|path| + 1];
      match schema
      case Optional(inner) => IssuesAt(inner, value, segments, path, x);
      case Of(kind, _) =>
        if kind.ArrayKind? {
          var i := IndexNamed(segments[0], |value.value.items|).value;
          ElementIssues(schema, value.value.items, path, i, x);
          IssuesAt(kind.item, Some(value.value.items[i]), segments[1..], path + [segments[0]], x);
        } else {
          var i := IndexOfEntry(kind.shape, segments[0]);
          PropertyIssues(schema, value.value.fields, path, i, x);
          IssuesAt(kind.shape[i].schema, Lookup(value.value.fields, segments[0]), segments[1..], path + [segments[0]],
                   x);
        }
    }
  }

  /** Issues point at failures: at every path inside a value that the schema describes, the part there
      does not conform exactly when the validator returns an issue at or under that path. */
  lemma IssuesPointAtFailures(schema: Schema, value: Option<Json>, segments: seq<Str>, path: seq<Str>)
    requires WellFormed(schema) && At(schema, value, segments).Some?
    ensures var (s, v) := At(schema, value, segments).value;
            (exists x :: x in Issues(schema, value, path) && path + segments <= x.path) <==> !Conforms(s, v)
  {
    var (s, v) := At(schema, value, segments).value;
    Exact(s, v, path + segments);
    IssuesUnder(s, v, path + segments);
    forall x: Issue | path + segments <= x.path
      ensures x in Issues(schema, value, path) <==> x in Issues(s, v, path + segments)
    {
      IssuesAt(schema, value, segments, path, x);
    }
    if Issues(s, v, path + segments) != [] {
      assert Issues(s, v, path + segments)[0] in Issues(s, v, path + segments);
    }
  }

  /** An unknown field of an object is reported, by its own path, exactly when the shape is closed. */
  lemma UnknownReported(schema: Schema, fields: seq<Field>, path: seq<Str>, key: Str)
    requires schema.Of? && schema.kind.ObjectKind? && Has(fields, key) && !InShape(schema.kind.shape, key)
    ensures Issue(path + [key], UnknownField) in Issues(schema, Some(Obj(fields)), path) <==> !schema.kind.allowUnknown
  {
    var shape := schema.kind.shape;
    var x := Issue(path + [key], UnknownField);
    UnknownIssuesAre(shape, fields, path, x);
    ShapeIssuesUnder(schema, |shape|, fields, path);
    if x in ShapeIssues(schema, |shape|, fields, path) {
      var i: nat :| i < |shape| && path + [shape[i].key] <= x.path;
      OneSegment(path, shape[i].key, key, x.path);
    }
  }
}
