/** Compiling keeps the meaning of supported schemas. */
module SchemaPreservation {
  import opened Utf16
  import opened CanonicalJson
  import opened JsonParser
  import opened Validation
  import opened SchemaCompiler
  import opened SchemaMeaning

  /** The parts of a schema compile faithfully. */
  ghost predicate PartsFaithful(s: Spec, node: Node)
    requires Acyclic(s)
  {
    forall c | c in Children(node) && Supported(s, c) :: Faithful(s, c, Compile(s, c))
  }

  /** A plain node with one type and no enum or oneOf. */
  predicate Typed(node: Node)
  {
    Plain(node) && node.enumeration.None? && node.oneOf.NoBranches? && node.types.One?
  }

  lemma TypedMeetsNoObject(s: Spec, node: Node, v: Json)
    requires Acyclic(s) && Typed(node) && !v.Obj? && !v.Arr?
    ensures Meets(s, node, v) <==> HasType(v, node.types.t) && InBounds(node.bounds, v)
  {
    assert ObeysOwn(s, node, v) <==> HasType(v, node.types.t) && InBounds(node.bounds, v);
    assert Obeys(s, node, v) <==> ObeysOwn(s, node, v);
  }

  lemma TypedMeetsWrongType(s: Spec, node: Node, v: Json)
    requires Acyclic(s) && Typed(node) && !HasType(v, node.types.t)
    ensures !Meets(s, node, v)
  {
    assert !ObeysOwn(s, node, v);
  }

  predicate IsScalar(t: Type)
  {
    t.StringType? || t.IntegerType? || t.NumberType? || t.BooleanType?
  }

  lemma ScalarFaithful(s: Spec, node: Node, h: nat)
    requires Acyclic(s) && Typed(node) && IsScalar(node.types.t) && ChildrenBelow(s, node, h)
    ensures Faithful(s, node, CompilePlain(s, node, h))
  {
    var schema := CompilePlain(s, node, h);
    forall v: Json ensures Conforms(schema, Some(v)) <==> Meets(s, node, v) {
      if v.Obj? || v.Arr? {
        TypedMeetsWrongType(s, node, v);
      } else {
        TypedMeetsNoObject(s, node, v);
      }
    }
  }

  lemma ArrayMeets(s: Spec, node: Node, v: Json)
    requires Acyclic(s) && Typed(node) && node.types.t == ArrayType && node.items.Some? && v.Arr?
    ensures Meets(s, node, v) <==>
            Fits(|v.items|, node.bounds.minItems, node.bounds.maxItems)
            && forall i | 0 <= i < |v.items| :: Meets(s, node.items.value, v.items[i])
  {
    assert node.items.value in Children(node);
    assert Obeys(s, node, v) <==> ObeysOwn(s, node, v);
  }

  lemma ArrayFaithful(s: Spec, node: Node, h: nat)
    requires Acyclic(s) && Typed(node) && node.types.t == ArrayType && ChildrenBelow(s, node, h)
    requires node.items.Some? && Faithful(s, node.items.value, Compile(s, node.items.value))
    ensures Faithful(s, node, CompilePlain(s, node, h))
  {
    var item := Compile(s, node.items.value);
    var schema := CompilePlain(s, node, h);
    assert schema == Of(ArrayKind(item, node.bounds.minItems, node.bounds.maxItems), false);
    forall v: Json ensures Conforms(schema, Some(v)) <==> Meets(s, node, v) {
      if v.Arr? {
        ArrayMeets(s, node, v);
      } else {
        TypedMeetsWrongType(s, node, v);
      }
    }
  }

  /** A property holds of the fields: it is there if it is required, and satisfied if it is there. */
  ghost predicate PropertyHolds(s: Spec, node: Node, p: Property, fields: seq<Field>)
    requires Acyclic(s)
  {
    && (p.key in RequiredOf(node) ==> Has(fields, p.key))
    && (Has(fields, p.key) ==> Meets(s, p.node, Get(fields, p.key)))
  }

  lemma ObjectMeets(s: Spec, node: Node, v: Json)
    requires Acyclic(s) && Typed(node) && node.types.t == ObjectType && ObjectFacts(s, node) && v.Obj?
    ensures Meets(s, node, v) <==>
            && (forall p | p in PropertiesOf(node) :: PropertyHolds(s, node, p, v.fields))
            && (node.additional.Open? || forall i | 0 <= i < |v.fields| :: Declares(s, node, v.fields[i].key))
  {
    TypedObeys(s, node, v);
    assert Opens(s, node) == Some(true) <==> node.additional.Open?;
    if forall p | p in PropertiesOf(node) :: PropertyHolds(s, node, p, v.fields) {
      forall key | key in RequiredOf(node) ensures Has(v.fields, key) {
        var p :| p in PropertiesOf(node) && p.key == key;
        assert PropertyHolds(s, node, p, v.fields);
      }
    }
  }

  lemma PropertyFaithful(s: Spec, node: Node, p: Property, fields: seq<Field>)
    requires Acyclic(s) && Faithful(s, p.node, Compile(s, p.node))
    ensures Conforms(CompileProperty(s, node, p), Lookup(fields, p.key)) <==> PropertyHolds(s, node, p, fields)
  {
    if Has(fields, p.key) {
      assert Conforms(Compile(s, p.node), Some(Get(fields, p.key))) <==> Meets(s, p.node, Get(fields, p.key));
    }
  }

  lemma AllIndexed(ps: seq<Property>, holds: Property -> bool)
    ensures (forall p | p in ps :: holds(p)) <==> forall i | 0 <= i < |ps| :: holds(ps[i])
  {
    if forall p | p in ps :: holds(p) {
      forall i | 0 <= i < |ps| ensures holds(ps[i]) {
        assert ps[i] in ps;
      }
    }
  }

  /** Every entry of a shape accepts its field. */
  ghost predicate EntriesHold(shape: seq<Entry>, fields: seq<Field>)
  {
    forall i | 0 <= i < |shape| :: Conforms(shape[i].schema, Lookup(fields, shape[i].key))
  }

  lemma ObjectConforms(shape: seq<Entry>, allowUnknown: bool, fields: seq<Field>)
    ensures Conforms(Of(ObjectKind(shape, allowUnknown), false), Some(Obj(fields))) <==>
            EntriesHold(shape, fields)
            && (allowUnknown || forall i | 0 <= i < |fields| :: InShape(shape, fields[i].key))
  {
  }

  lemma EntriesIndexed(shape: seq<Entry>, fields: seq<Field>, ps: seq<Property>, holds: Property -> bool)
    requires |shape| == |ps|
    requires forall i | 0 <= i < |shape| :: Conforms(shape[i].schema, Lookup(fields, shape[i].key)) <==> holds(ps[i])
    ensures EntriesHold(shape, fields) <==> forall p | p in ps :: holds(p)
  {
    AllIndexed(ps, holds);
    if forall i | 0 <= i < |ps| :: holds(ps[i]) {
      forall i | 0 <= i < |shape| ensures Conforms(shape[i].schema, Lookup(fields, shape[i].key)) {
        assert holds(ps[i]);
      }
    }
    if forall i | 0 <= i < |shape| :: Conforms(shape[i].schema, Lookup(fields, shape[i].key)) {
      forall i | 0 <= i < |ps| ensures holds(ps[i]) {
        assert Conforms(shape[i].schema, Lookup(fields, shape[i].key));
      }
    }
  }

  /** All properties compile to entries that hold of the same fields. */
  lemma ShapeFaithful(s: Spec, node: Node, h: nat, fields: seq<Field>, holds: Property -> bool)
    requires Acyclic(s) && ChildrenBelow(s, node, h)
    requires forall p | p in PropertiesOf(node) :: Faithful(s, p.node, Compile(s, p.node))
    requires forall p :: holds(p) == PropertyHolds(s, node, p, fields)
    ensures EntriesHold(CompileShape(s, node, |PropertiesOf(node)|, h), fields) <==>
            forall p | p in PropertiesOf(node) :: holds(p)
  {
    var ps := PropertiesOf(node);
    var shape := CompileShape(s, node, |ps|, h);
    forall i | 0 <= i < |shape| ensures Conforms(shape[i].schema, Lookup(fields, shape[i].key)) <==> holds(ps[i]) {
      assert ps[i] in ps;
      PropertyFaithful(s, node, ps[i], fields);
    }
    EntriesIndexed(shape, fields, ps, holds);
  }

  lemma ShapeDeclares(s: Spec, node: Node, h: nat, key: Str)
    requires Acyclic(s) && ChildrenBelow(s, node, h) && Plain(node)
    ensures InShape(CompileShape(s, node, |PropertiesOf(node)|, h), key) <==> Declares(s, node, key)
  {
    var ps := PropertiesOf(node);
    var shape := CompileShape(s, node, |ps|, h);
    if InShape(shape, key) {
      var i :| 0 <= i < |shape| && shape[i].key == key;
      assert ps[i] in ps && ps[i].key == key;
    }
    if Declares(s, node, key) {
      var p :| p in ps && p.key == key;
      var i :| 0 <= i < |ps| && ps[i] == p;
      assert shape[i].key == key;
    }
  }

  lemma ShapeKnows(s: Spec, node: Node, h: nat, fields: seq<Field>)
    requires Acyclic(s) && ChildrenBelow(s, node, h) && Plain(node)
    ensures var shape := CompileShape(s, node, |PropertiesOf(node)|, h);
            (forall i | 0 <= i < |fields| :: InShape(shape, fields[i].key)) <==>
              forall i | 0 <= i < |fields| :: Declares(s, node, fields[i].key)
  {
    var shape := CompileShape(s, node, |PropertiesOf(node)|, h);
    forall i | 0 <= i < |fields| ensures InShape(shape, fields[i].key) <==> Declares(s, node, fields[i].key) {
      ShapeDeclares(s, node, h, fields[i].key);
    }
  }

  lemma ObjectValueFaithful(s: Spec, node: Node, h: nat, shape: seq<Entry>, fields: seq<Field>)
    requires Acyclic(s) && Typed(node) && node.types.t == ObjectType && ChildrenBelow(s, node, h)
             && ObjectFacts(s, node)
    requires forall p | p in PropertiesOf(node) :: Faithful(s, p.node, Compile(s, p.node))
    requires shape == CompileShape(s, node, |PropertiesOf(node)|, h)
    ensures Conforms(Of(ObjectKind(shape, node.additional.Open?), false), Some(Obj(fields))) <==>
            Meets(s, node, Obj(fields))
  {
    var holds := (p: Property) => PropertyHolds(s, node, p, fields);
    ShapeFaithful(s, node, h, fields, holds);
    ObjectMeets(s, node, Obj(fields));
    assert (forall p | p in PropertiesOf(node) :: holds(p)) <==>
           forall p | p in PropertiesOf(node) :: PropertyHolds(s, node, p, fields);
    ShapeKnows(s, node, h, fields);
    ObjectConforms(shape, node.additional.Open?, fields);
  }

  lemma ObjectFaithful(s: Spec, node: Node, h: nat)
    requires Acyclic(s) && Typed(node) && node.types.t == ObjectType && ChildrenBelow(s, node, h)
             && ObjectFacts(s, node)
    requires forall p | p in PropertiesOf(node) :: Faithful(s, p.node, Compile(s, p.node))
    ensures Faithful(s, node, CompilePlain(s, node, h))
  {
    var schema := CompilePlain(s, node, h);
    var shape := CompileShape(s, node, |PropertiesOf(node)|, h);
    assert schema == Of(ObjectKind(shape, node.additional.Open?), false);
    forall v: Json ensures Conforms(schema, Some(v)) <==> Meets(s, node, v) {
      if v.Obj? {
        ObjectValueFaithful(s, node, h, shape, v.fields);
      } else {
        TypedMeetsWrongType(s, node, v);
      }
    }
  }

  /** Plain supported nodes with a single type. */
  lemma TypedFaithful(s: Spec, node: Node, h: nat)
    requires Acyclic(s) && Typed(node) && ChildrenBelow(s, node, h) && SupportedTyped(s, node, node.types.t)
             && PartsFaithful(s, node)
    ensures Faithful(s, node, CompilePlain(s, node, h))
  {
    match node.types.t
    case ArrayType =>
      assert node.items.value in Children(node);
      ArrayFaithful(s, node, h);
    case ObjectType =>
      forall p | p in PropertiesOf(node) ensures Supported(s, p.node) && Faithful(s, p.node, Compile(s, p.node)) {
        PropertyIsChild(node, p);
      }
      ObjectFaithful(s, node, h);
    case _ => ScalarFaithful(s, node, h);
  }

  // ---------------------------------------------------------------- type lists with null

  lemma RetypedMeets(s: Spec, node: Node, t: Type, v: Json)
    requires Acyclic(s) && Plain(node) && node.enumeration.None? && node.oneOf.NoBranches?
    requires node.types.Many? && PairWithNull(node.types.ts, t)
    ensures v != Null ==> (Meets(s, node, v) <==> Meets(s, node.(types := One(t)), v))
    ensures Meets(s, node, Null) <==> NullType in node.types.ts
  {
    var one := node.(types := One(t));
    var ts := node.types.ts;
    assert Children(one) == Children(node);
    assert v != Null ==> (TypeAllows(node.types, v) <==> HasType(v, t)) by {
      assert forall i | 0 <= i < |ts| :: ts[i] == t || ts[i] == NullType;
      assert ts[0] == t || (|ts| == 2 && ts[1] == t);
    }
    assert TypeAllows(node.types, Null) <==> NullType in ts by {
      assert t != NullType ==> !HasType(Null, t);
    }
    assert v != Null ==> (ObeysOwn(s, node, v) <==> ObeysOwn(s, one, v));
    assert Obeys(s, node, v) <==> ObeysOwn(s, node, v);
    assert Obeys(s, one, v) <==> ObeysOwn(s, one, v);
    assert Obeys(s, node, Null) <==> ObeysOwn(s, node, Null);
    forall key ensures Declares(s, one, key) <==> Declares(s, node, key) {
      assert PropertiesOf(one) == PropertiesOf(node);
    }
    assert Opens(s, one) == Opens(s, node);
  }

  lemma FirstNonNullOf(ts: seq<Type>, t: Type)
    requires PairWithNull(ts, t)
    ensures FirstNonNull(ts) == One(t)
  {
    if ts[0] == NullType {
      assert ts[1..][0] == t;
    }
  }

  lemma RetypedSupported(s: Spec, node: Node, t: Type)
    requires Acyclic(s) && Plain(node) && SupportedTyped(s, node, t)
    ensures SupportedTyped(s, node.(types := One(t)), t)
  {
    var one := node.(types := One(t));
    match t
    case ArrayType => assert Supported(s, one.items.value);
    case ObjectType =>
      assert PropertiesOf(one) == PropertiesOf(node) && RequiredOf(one) == RequiredOf(node);
      assert ObjectFacts(s, node);
      assert ObjectFacts(s, one);
    case _ =>
  }

  lemma WithNullAccepts(schema: Schema, nullable: bool, v: Json)
    requires schema.Of?
    ensures Conforms(WithNull(schema, nullable), Some(v)) <==>
            if v == Null then nullable || schema.nullable else Conforms(schema, Some(v))
  {
  }

  lemma TypeListFaithful(s: Spec, node: Node, t: Type, h: nat)
    requires Acyclic(s) && Plain(node) && node.enumeration.None? && node.oneOf.NoBranches? && ChildrenBelow(s, node, h)
    requires node.types.Many? && PairWithNull(node.types.ts, t) && SupportedTyped(s, node, t) && PartsFaithful(s, node)
    ensures Faithful(s, node, CompilePlain(s, node, h))
  {
    var one := node.(types := One(t));
    assert Children(one) == Children(node);
    FirstNonNullOf(node.types.ts, t);
    RetypedSupported(s, node, t);
    TypedFaithful(s, one, h);
    var schema := CompilePlain(s, one, h);
    TypedNotNullable(s, one, h);
    assert CompilePlain(s, node, h) == WithNull(schema, NullType in node.types.ts);
    forall v: Json ensures Conforms(CompilePlain(s, node, h), Some(v)) <==> Meets(s, node, v) {
      RetypedMeets(s, node, t, v);
      WithNullAccepts(schema, NullType in node.types.ts, v);
    }
  }

  lemma TypedNotNullable(s: Spec, node: Node, h: nat)
    requires Acyclic(s) && Typed(node) && ChildrenBelow(s, node, h)
    ensures !CompilePlain(s, node, h).nullable
  {
    assert !IsNullable(node);
  }

  // ---------------------------------------------------------------- a branch or null

  lemma NullNodeMeets(s: Spec, v: Json)
    requires Acyclic(s)
    ensures Meets(s, NULL_NODE, v) <==> v == Null
  {
    assert ObeysOwn(s, NULL_NODE, v) <==> v == Null;
    assert Obeys(s, NULL_NODE, v) <==> ObeysOwn(s, NULL_NODE, v);
    assert !IsObject(s, NULL_NODE);
  }

  /** A schema that is null-free by its keywords does not admit null. */
  lemma {:induction false} NullFreeRefuses(s: Spec, node: Node)
    requires Acyclic(s) && Supported(s, node) && NullFree(s, node)
    ensures !Obeys(s, node, Null)
    decreases Level(s, node), node
  {
    if IsRef(node) {
      TargetLower(s, node);
      NullFreeRefuses(s, Target(s, node).value);
    } else if node.allOf.Branches? {
      ObjectResolves(s, node);
      TypedObeys(s, Resolve(s, node).value, Null);
    } else {
      assert !ObeysOwn(s, node, Null);
    }
  }

  lemma OneOfTwo(admits: int -> bool, i: int)
    requires 0 <= i < 2
    ensures ExactlyOne(2, admits) <==> admits(i) != admits(1 - i)
  {
    if admits(i) != admits(1 - i) {
      var k := if admits(i) then i else 1 - i;
      assert admits(k) && forall j | 0 <= j < 2 && j != k :: !admits(j);
    }
  }

  /** Exactly one of two branches. */
  lemma TwoBranches(s: Spec, node: Node, i: int, v: Json)
    requires Acyclic(s) && node == EMPTY.(ref := node.ref, oneOf := node.oneOf)
    requires node.oneOf.Branches? && |node.oneOf.list| == 2 && 0 <= i < 2
    ensures ObeysOwn(s, node, v) <==> (Meets(s, node.oneOf.list[i], v) != Meets(s, node.oneOf.list[1 - i], v))
  {
    var admits := (k: int) => 0 <= k < |node.oneOf.list|
      && (assert node.oneOf.list[k] in Children(node); Meets(s, node.oneOf.list[k], v));
    OneOfTwo(admits, i);
    assert ObeysOwn(s, node, v) <==> ExactlyOne(2, admits);
  }

  lemma OneOfMeets(s: Spec, node: Node, i: int, v: Json)
    requires Acyclic(s) && Plain(node) && node == EMPTY.(ref := node.ref, oneOf := node.oneOf)
    requires node.oneOf.Branches? && |node.oneOf.list| == 2 && 0 <= i < 2 && node.oneOf.list[1 - i] == NULL_NODE
    requires Supported(s, node.oneOf.list[i]) && NullFree(s, node.oneOf.list[i])
    ensures Meets(s, node, v) <==> v == Null || Meets(s, node.oneOf.list[i], v)
  {
    var branch := node.oneOf.list[i];
    TwoBranches(s, node, i, v);
    NullNodeMeets(s, v);
    NullRefused(s, branch);
    assert Obeys(s, node, v) <==> ObeysOwn(s, node, v);
    assert !IsObject(s, node);
  }

  lemma NullRefused(s: Spec, node: Node)
    requires Acyclic(s) && Supported(s, node) && NullFree(s, node)
    ensures !Meets(s, node, Null)
  {
    NullFreeRefuses(s, node);
  }

  lemma FirstRealOf(bs: seq<Node>, i: int)
    requires |bs| == 2 && 0 <= i < 2 && bs[1 - i] == NULL_NODE && bs[i].types != One(NullType)
    ensures FirstReal(bs) == Some(bs[i])
  {
    if i == 1 {
      assert bs[1..][0] == bs[1];
    }
  }

  lemma OneOfFaithful(s: Spec, node: Node, i: int, h: nat)
    requires Acyclic(s) && Plain(node) && node == EMPTY.(ref := node.ref, oneOf := node.oneOf)
             && ChildrenBelow(s, node, h)
    requires node.oneOf.Branches? && |node.oneOf.list| == 2 && 0 <= i < 2 && node.oneOf.list[1 - i] == NULL_NODE
    requires Supported(s, node.oneOf.list[i]) && NullFree(s, node.oneOf.list[i])
             && node.oneOf.list[i].types != One(NullType)
    requires Faithful(s, node.oneOf.list[i], Compile(s, node.oneOf.list[i]))
    ensures Faithful(s, node, CompilePlain(s, node, h))
  {
    var bs := node.oneOf.list;
    var schema := Compile(s, bs[i]);
    FirstRealOf(bs, i);
    assert IsNullable(node) by { assert bs[1 - i].types == One(NullType); }
    assert bs[i] in Children(node);
    assert CompilePlain(s, node, h) == WithNull(schema, true);
    forall v: Json ensures Conforms(CompilePlain(s, node, h), Some(v)) <==> Meets(s, node, v) {
      OneOfMeets(s, node, i, v);
      WithNullAccepts(schema, true, v);
    }
  }

  // ---------------------------------------------------------------- the theorem

  lemma EnumPlainFaithful(s: Spec, node: Node, h: nat)
    requires Acyclic(s) && Plain(node) && node.enumeration.Some? && ChildrenBelow(s, node, h)
    requires node == EMPTY.(ref := node.ref, enumeration := node.enumeration, types := node.types)
    requires EnumFaithful(node.types, node.enumeration.value)
    ensures Faithful(s, node, CompilePlain(s, node, h))
  {
    EnumFaithfulIff(s, node);
  }

  lemma PlainFaithful(s: Spec, node: Node, h: nat)
    requires Acyclic(s) && Plain(node) && ChildrenBelow(s, node, h) && SupportedPlain(s, node) && PartsFaithful(s, node)
    ensures Faithful(s, node, CompilePlain(s, node, h))
  {
    if node.enumeration.Some? {
      EnumPlainFaithful(s, node, h);
    } else if node.oneOf.Branches? {
      var bs := node.oneOf.list;
      var i :| 0 <= i < 2 && bs[1 - i] == NULL_NODE && bs[i].types != One(NullType) && Supported(s, bs[i])
        && NullFree(s, bs[i]);
      assert bs[i] in Children(node);
      OneOfFaithful(s, node, i, h);
    } else if node.types.Many? {
      var t :| PairWithNull(node.types.ts, t) && SupportedTyped(s, node, t);
      TypeListFaithful(s, node, t, h);
    } else {
      TypedFaithful(s, node, h);
    }
  }

  /** Compilation preserves meaning: for acyclic references and every supported schema, a value satisfies
      the schema exactly when the validator accepts it under the compiled one. */
  lemma {:induction false} CompilePreserves(s: Spec, node: Node)
    requires Acyclic(s) && Supported(s, node)
    ensures Faithful(s, node, Compile(s, node))
    decreases Height(s, node)
  {
    Resolves(s, node);
    ResolveBelow(s, node);
    var r, h := Resolve(s, node).value, Height(s, node);
    forall c | c in Children(r) && Supported(s, c) ensures Faithful(s, c, Compile(s, c)) {
      CompilePreserves(s, c);
    }
    PlainFaithful(s, r, h);
    forall v: Json ensures Conforms(Compile(s, node), Some(v)) <==> Meets(s, node, v) {
      SameMeets(s, node, r, v);
    }
  }

  /** The same, for the validator itself. */
  lemma ValidatorDecidesMeaning(s: Spec, node: Node, v: Json, path: seq<Str>)
    requires Acyclic(s) && Supported(s, node)
    ensures Validate(Compile(s, node), Some(v), path).ok <==> Meets(s, node, v)
  {
    CompilePreserves(s, node);
    ValidateExact(Compile(s, node), Some(v), path);
  }
}
