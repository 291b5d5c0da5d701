/** What stableStringify identifies: values that are equal up to key order at every depth, and
    nothing else. hashPayload inherits that. */
module CanonicalForm {
  import opened Utf16
  import opened CanonicalJson
  import opened JsonParser
  import Ordering

  /** Keys of every object strictly ascending. */
  predicate Ascending(v: Json)
    decreases v
  {
    match v
    case Arr(items) => forall i | 0 <= i < |items| :: Ascending(items[i])
    case Obj(fields) =>
      && (forall i, j | 0 <= i < j < |fields| :: Less(fields[i].key, fields[j].key))
      && forall i | 0 <= i < |fields| :: Ascending(fields[i].value)
    case _ => true
  }

  lemma SortedKeysAscend(fields: seq<Field>)
    requires Distinct(Keys(fields))
    ensures var keys := SortedKeys(fields); forall i, j | 0 <= i < j < |keys| :: Less(keys[i], keys[j])
  {
    var keys := SortedKeys(fields);
    LessIsOrder();
    Ordering.SortSorted(Less, Keys(fields));
    forall i, j | 0 <= i < j < |keys| ensures Less(keys[i], keys[j]) {
      DistinctSorted(Keys(fields), keys, i, j);
      LessTotal(keys[i], keys[j]);
      assert !Less(keys[j], keys[i]);
    }
  }

  lemma DistinctSorted(keys: seq<Str>, sorted: seq<Str>, i: nat, j: nat)
    requires Distinct(keys) && multiset(sorted) == multiset(keys) && i < j < |sorted|
    ensures sorted[i] != sorted[j]
  {
    DistinctCount(keys, sorted[i]);
    assert sorted == sorted[..j] + sorted[j..];
    assert sorted[..j][i] == sorted[i] && sorted[j..][0] == sorted[j];
    assert multiset(sorted)[sorted[i]] == multiset(sorted[..j])[sorted[i]] + multiset(sorted[j..])[sorted[i]];
    assert multiset(sorted[..j])[sorted[i]] >= 1;
  }

  lemma {:induction false} DistinctCount(keys: seq<Str>, k: Str)
    requires Distinct(keys)
    ensures multiset(keys)[k] <= 1
  {
    if keys != [] {
      assert keys == [keys[0]] + keys[1..];
      assert forall i, j | 0 <= i < j < |keys[1..]| :: keys[1..][i] != keys[1..][j];
      DistinctCount(keys[1..], k);
      assert k == keys[0] ==> k !in keys[1..];
    }
  }

  /** The canonical form has its keys in ascending order at every depth. */
  lemma {:induction false} CanonAscends(v: Json)
    requires Proper(v)
    ensures Ascending(Canon(v))
  {
    match v
    case Arr(items) =>
      forall i | 0 <= i < |items| ensures Ascending(Canon(items[i])) { CanonAscends(items[i]); }
    case Obj(fields) =>
      SortedKeysAscend(fields);
      var keys := SortedKeys(fields);
      forall i | 0 <= i < |keys| ensures Ascending(Canon(Get(fields, keys[i]))) {
        var k :| 0 <= k < |fields| && fields[k] == Field(keys[i], Get(fields, keys[i]));
        CanonAscends(fields[k].value);
      }
    case _ =>
  }

  /** Equality up to key order at every depth. */
  predicate Same(v: Json, w: Json)
    decreases v
  {
    match v
    case Arr(items) =>
      w.Arr? && |items| == |w.items| && forall i | 0 <= i < |items| :: Same(items[i], w.items[i])
    case Obj(fields) =>
      w.Obj? && |fields| == |w.fields| &&
      forall i | 0 <= i < |fields| ::
        Has(w.fields, fields[i].key) && Same(fields[i].value, Get(w.fields, fields[i].key))
    case _ => v == w
  }

  /** Objects with the same keys in the same order are equal up to key order just if their values are. */
  lemma SameAligned(f: seq<Field>, g: seq<Field>)
    requires |f| == |g| && Keys(f) == Keys(g) && Distinct(Keys(f))
    ensures Same(Obj(f), Obj(g)) <==> forall i | 0 <= i < |f| :: Same(f[i].value, g[i].value)
  {
    forall i | 0 <= i < |f| ensures Has(g, f[i].key) && Get(g, f[i].key) == g[i].value {
      assert Keys(f)[i] == Keys(g)[i];
      GetAt(g, i);
    }
  }

  function Equal(): (Json, Json) -> bool
  {
    (v: Json, w: Json) => Same(v, w)
  }

  lemma ArraysSame(xs: seq<Json>, ys: seq<Json>)
    ensures Same(Arr(xs), Arr(ys)) <==> |xs| == |ys| && forall i | 0 <= i < |xs| :: Equal()(xs[i], ys[i])
  {
  }

  lemma ObjectsSame(f: seq<Field>, g: seq<Field>)
    requires |f| == |g| && Keys(f) == Keys(g) && Distinct(Keys(f))
    ensures Same(Obj(f), Obj(g)) <==> forall i | 0 <= i < |f| :: Equal()(f[i].value, g[i].value)
  {
    SameAligned(f, g);
  }

  /** The value with the keys of every object in code-unit order. */
  function Canon(v: Json): Json
    decreases v, 1, 0
  {
    match v
    case Arr(items) => Arr(CanonItems(items))
    case Obj(fields) => Obj(CanonFields(v, SortedKeys(fields)))
    case _ => v
  }

  function CanonItems(items: seq<Json>): (r: seq<Json>)
    ensures |r| == |items|
    ensures forall i | 0 <= i < |r| :: r[i] == Canon(items[i])
    decreases items, 0, 0
  {
    if items == [] then [] else [Canon(items[0])] + CanonItems(items[1..])
  }

  function CanonFields(v: Json, keys: seq<Str>): (r: seq<Field>)
    requires v.Obj? && forall k | k in keys :: Has(v.fields, k)
    ensures |r| == |keys|
    ensures forall i | 0 <= i < |r| :: r[i] == Field(keys[i], Canon(Get(v.fields, keys[i])))
    decreases v, 0, |keys|
  {
    if keys == [] then []
    else
      var value := Get(v.fields, keys[0]);
      assert value < v;
      [Field(keys[0], Canon(value))] + CanonFields(v, keys[1..])
  }

  // ---------------------------------------------------------------- the printer factors through Canon

  lemma {:induction false} StableIsCanonical(v: Json)
    ensures StableStringify(v) == Stringify(Canon(v))
    decreases v, 1, 0
  {
    match v
    case Arr(items) => StableItemsCanonical(items);
    case Obj(fields) => StableFieldsCanonical(v, SortedKeys(fields));
    case _ =>
  }

  lemma {:induction false} StableItemsCanonical(items: seq<Json>)
    ensures StableItems(items) == StringifyItems(CanonItems(items))
    decreases items, 0, 0
  {
    if items != [] {
      StableIsCanonical(items[0]);
      StableItemsCanonical(items[1..]);
      assert CanonItems(items)[1..] == CanonItems(items[1..]);
    }
  }

  lemma {:induction false} StableFieldsCanonical(v: Json, keys: seq<Str>)
    requires v.Obj? && forall k | k in keys :: Has(v.fields, k)
    ensures StableFields(v, keys) == StringifyFields(CanonFields(v, keys))
    decreases v, 0, |keys|
  {
    if keys != [] {
      var value := Get(v.fields, keys[0]);
      StableIsCanonical(value);
      StableFieldsCanonical(v, keys[1..]);
      assert CanonFields(v, keys)[1..] == CanonFields(v, keys[1..]);
    }
  }

  /** A parser recovers the value, keys sorted, from its canonical text followed by any rest that
      does not lengthen a trailing number; for other rests it does not. */
  lemma StableRoundTrip(v: Json, rest: Str)
    ensures ReadValue(StableStringify(v) + rest) == Read(Canon(v), rest) <==> Delimits(v, rest)
  {
    StableIsCanonical(v);
    if Delimits(v, rest) {
      StringifyRoundTrip(Canon(v), rest);
    } else {
      ReadNumberOf(v.n, rest);
    }
  }

  // ---------------------------------------------------------------- Canon identifies exactly Same

  function ToSet(keys: seq<Str>): (r: set<Str>)
    ensures forall k :: k in r <==> k in keys
  {
    set k | k in keys
  }

  lemma {:induction false} DistinctCardinality(keys: seq<Str>)
    requires Distinct(keys)
    ensures |ToSet(keys)| == |keys|
  {
    if keys != [] {
      DistinctCardinality(keys[1..]);
      assert keys == [keys[0]] + keys[1..];
      assert ToSet(keys) == {keys[0]} + ToSet(keys[1..]);
    } else {
      assert ToSet(keys) == {};
    }
  }

  lemma {:induction false} DistinctMultiplicity(keys: seq<Str>, k: Str)
    requires Distinct(keys)
    ensures multiset(keys)[k] == if k in keys then 1 else 0
  {
    if keys != [] {
      DistinctMultiplicity(keys[1..], k);
      assert keys == [keys[0]] + keys[1..];
    }
  }

  lemma SubsetOfEqualSize(a: set<Str>, b: set<Str>)
    requires a <= b && |a| == |b|
    ensures a == b
  {
    assert b == a + (b - a) && |b| == |a| + |b - a|;
  }

  /** Pigeonhole: equally many distinct keys, all of one list in the other, are the same keys. */
  lemma SameKeyMultiset(a: seq<Str>, b: seq<Str>)
    requires Distinct(a) && Distinct(b) && |a| == |b|
    requires forall k | k in a :: k in b
    ensures multiset(a) == multiset(b)
  {
    DistinctCardinality(a);
    DistinctCardinality(b);
    SubsetOfEqualSize(ToSet(a), ToSet(b));
    forall k ensures multiset(a)[k] == multiset(b)[k] {
      DistinctMultiplicity(a, k);
      DistinctMultiplicity(b, k);
      assert k in a <==> k in ToSet(b);
    }
  }

  lemma LessIsOrder()
    ensures Ordering.WeakOrder(Less)
  {
    forall x: Str ensures !Less(x, x) { LessIrreflexive(x); }
    forall x: Str, y: Str, z: Str | Less(x, y) && Less(y, z) ensures Less(x, z) { LessTransitive(x, y, z); }
    forall x: Str, y: Str, z: Str | Less(x, z) ensures Less(x, y) || Less(y, z) {
      if x != y {
        LessTotal(x, y);
        if Less(y, x) { LessTransitive(y, x, z); }
      }
    }
  }

  lemma LessNeverTies(keys: multiset<Str>)
    ensures Ordering.NoTies(Less, keys)
  {
    forall x, y | x in keys && y in keys && x != y ensures Less(x, y) || Less(y, x) { LessTotal(x, y); }
  }

  lemma SortedKeysAgree(a: seq<Field>, b: seq<Field>)
    requires multiset(Keys(a)) == multiset(Keys(b))
    ensures SortedKeys(a) == SortedKeys(b)
  {
    LessIsOrder();
    LessNeverTies(multiset(Keys(a)));
    Ordering.SortPermutation(Less, Keys(a), Keys(b));
  }

  lemma SortedKeysDistinct(fields: seq<Field>)
    requires Distinct(Keys(fields))
    ensures Distinct(SortedKeys(fields))
    ensures forall k :: k in SortedKeys(fields) <==> k in Keys(fields)
  {
    var sorted := SortedKeys(fields);
    forall k ensures k in sorted <==> k in Keys(fields) {
      assert k in multiset(sorted) <==> k in multiset(Keys(fields));
    }
    forall i, j | 0 <= i < j < |sorted| ensures sorted[i] != sorted[j] {
      if sorted[i] == sorted[j] {
        var k := sorted[i];
        assert sorted == sorted[..i] + [k] + sorted[i + 1..j] + [k] + sorted[j + 1..];
        assert multiset(sorted)[k] >= 2;
        DistinctMultiplicity(Keys(fields), k);
        assert false;
      }
    }
  }

  lemma SameKeys(a: seq<Field>, b: seq<Field>)
    requires Distinct(Keys(a)) && Distinct(Keys(b)) && |a| == |b|
    requires forall i | 0 <= i < |a| :: Has(b, a[i].key)
    ensures SortedKeys(a) == SortedKeys(b)
  {
    forall k | k in Keys(a) ensures k in Keys(b) {
      var i :| 0 <= i < |a| && Keys(a)[i] == k;
      var j :| 0 <= j < |b| && b[j].key == k;
      assert Keys(b)[j] == k;
    }
    SameKeyMultiset(Keys(a), Keys(b));
    SortedKeysAgree(a, b);
  }

  lemma ItemsAgree(items: seq<Json>, items': seq<Json>)
    requires |items| == |items'| && forall i | 0 <= i < |items| :: Canon(items[i]) == Canon(items'[i])
    ensures CanonItems(items) == CanonItems(items')
  {
    var c, c' := CanonItems(items), CanonItems(items');
    forall i | 0 <= i < |c| ensures c[i] == c'[i] {
      assert c[i] == Canon(items[i]) && c'[i] == Canon(items'[i]);
    }
  }

  lemma FieldsAgree(v: Json, w: Json, keys: seq<Str>)
    requires v.Obj? && w.Obj? && forall k | k in keys :: Has(v.fields, k) && Has(w.fields, k)
    requires forall k | k in keys :: Canon(Get(v.fields, k)) == Canon(Get(w.fields, k))
    ensures CanonFields(v, keys) == CanonFields(w, keys)
  {
    var c, c' := CanonFields(v, keys), CanonFields(w, keys);
    forall i | 0 <= i < |c| ensures c[i] == c'[i] {
      assert keys[i] in keys;
    }
  }

  lemma {:induction false} SameThenCanon(v: Json, w: Json)
    requires Proper(v) && Proper(w) && Same(v, w)
    ensures Canon(v) == Canon(w)
    decreases v
  {
    match v
    case Arr(items) =>
      forall i | 0 <= i < |items| ensures Canon(items[i]) == Canon(w.items[i]) {
        SameThenCanon(items[i], w.items[i]);
      }
      ItemsAgree(items, w.items);
    case Obj(fields) =>
      SameKeys(fields, w.fields);
      var keys := SortedKeys(fields);
      forall k | k in keys ensures Canon(Get(fields, k)) == Canon(Get(w.fields, k)) {
        var j :| 0 <= j < |fields| && fields[j].key == k;
        GetAt(fields, j);
        SameThenCanon(fields[j].value, Get(w.fields, fields[j].key));
      }
      FieldsAgree(v, w, keys);
    case _ =>
  }

  lemma {:induction false} CanonThenSame(v: Json, w: Json)
    requires Proper(v) && Proper(w) && Canon(v) == Canon(w)
    ensures Same(v, w)
    decreases v
  {
    match v
    case Arr(items) =>
      assert |items| == |CanonItems(items)| == |CanonItems(w.items)|;
      forall i | 0 <= i < |items| ensures Same(items[i], w.items[i]) {
        assert CanonItems(items)[i] == CanonItems(w.items)[i];
        CanonThenSame(items[i], w.items[i]);
      }
    case Obj(fields) =>
      var keys, keys' := SortedKeys(fields), SortedKeys(w.fields);
      var c, c' := CanonFields(v, keys), CanonFields(w, keys');
      assert |fields| == |keys| == |c| == |c'| == |keys'| == |w.fields| by {
        assert |multiset(keys)| == |multiset(Keys(fields))|;
        assert |multiset(keys')| == |multiset(Keys(w.fields))|;
      }
      SortedKeysDistinct(fields);
      forall i | 0 <= i < |fields|
        ensures Has(w.fields, fields[i].key) && Same(fields[i].value, Get(w.fields, fields[i].key))
      {
        assert Keys(fields)[i] in keys;
        var j :| 0 <= j < |keys| && keys[j] == fields[i].key;
        assert c[j] == c'[j];
        assert keys'[j] in keys';
        GetAt(fields, i);
        CanonThenSame(fields[i].value, Get(w.fields, fields[i].key));
      }
    case _ =>
  }

  /** stableStringify prints two values alike exactly when they are equal up to key order at every depth. */
  lemma StableStringifyIdentifiesSame(v: Json, w: Json)
    requires Proper(v) && Proper(w)
    ensures StableStringify(v) == StableStringify(w) <==> Same(v, w)
  {
    if Same(v, w) {
      SameThenCanon(v, w);
      StableIsCanonical(v);
      StableIsCanonical(w);
    }
    if StableStringify(v) == StableStringify(w) {
      StableRoundTrip(v, []);
      StableRoundTrip(w, []);
      CanonThenSame(v, w);
    }
  }

  /** JSON.parse(JSON.stringify(v)): what a JSON column gives back. */
  function ParseJson(t: Str): Option<Json>
  {
    match ReadValue(t)
    case Read(v, rest) => if rest == [] then Some(v) else None
    case Failed => None
  }

  /** A JSON column gives back the value that was stored, fields in the same order. */
  lemma ColumnRoundTrip(v: Json)
    ensures ParseJson(Stringify(v)) == Some(v)
  {
    StringifyRoundTrip(v, []);
    assert Stringify(v) + [] == Stringify(v);
  }

  // ---------------------------------------------------------------- digests

  /** SHA-256 as an uninterpreted injective function: a free constructor over the hashed text. */
  datatype Digest = Sha256(text: Str)

  /** hashPayload */
  function HashPayload(v: Json): Digest
  {
    Sha256(StableStringify(v))
  }

  lemma HashPayloadIdentifiesSame(v: Json, w: Json)
    requires Proper(v) && Proper(w)
    ensures HashPayload(v) == HashPayload(w) <==> Same(v, w)
  {
    StableStringifyIdentifiesSame(v, w);
  }
}
