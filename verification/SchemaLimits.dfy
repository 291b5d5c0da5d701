/** Exactly when the schemas that CompilePreserves does not cover keep their meaning: arrays, objects with
    required keys, lists of types, and schemas without a type. */
module SchemaLimits {
  import opened Utf16
  import opened CanonicalJson
  import opened JsonParser
  import opened Validation
  import opened SchemaCompiler
  import opened SchemaMeaning
  import opened SchemaPreservation

  lemma CompilesAsItself(s: Spec, node: Node)
    requires Acyclic(s) && Plain(node)
    ensures ChildrenBelow(s, node, Height(s, node)) && Compile(s, node) == CompilePlain(s, node, Height(s, node))
  {
    ResolveBelow(s, node);
  }

  // ---------------------------------------------------------------- schemas without a type

  /** Without type, enum and oneOf a schema admits every scalar, and its compiled form none. */
  lemma UntypedNeverFaithful(s: Spec, node: Node)
    requires Acyclic(s) && Plain(node) && node.enumeration.None? && node.oneOf.NoBranches? && node.types.Untyped?
    ensures !Faithful(s, node, Compile(s, node))
  {
    CompilesAsItself(s, node);
    assert ObeysOwn(s, node, Bool(true));
    assert Obeys(s, node, Bool(true)) <==> ObeysOwn(s, node, Bool(true));
    assert Meets(s, node, Bool(true)) && !Conforms(Compile(s, node), Some(Bool(true)));
  }

  // ---------------------------------------------------------------- lost references and other combinations

  lemma PassthroughTakesObjects(nullable: bool, v: Json)
    ensures Conforms(WithNull(PASSTHROUGH, nullable), Some(v)) <==> v.Obj? || (v == Null && nullable)
  {
  }

  /** A schema whose reference leads nowhere takes objects of any kind and nothing else. */
  lemma LostReferenceTakesObjects(s: Spec, node: Node, v: Json)
    requires Acyclic(s) && IsRef(node) && Target(s, node).None?
    ensures Conforms(Compile(s, node), Some(v)) <==> v.Obj?
  {
    PassthroughTakesObjects(false, v);
    assert Compile(s, node) == PASSTHROUGH;
  }

  lemma {:induction false} NoRealBranch(nodes: seq<Node>)
    ensures FirstReal(nodes).None? <==> forall b | b in nodes :: b.types == One(NullType)
  {
    if nodes != [] {
      NoRealBranch(nodes[1..]);
      assert nodes == [nodes[0]] + nodes[1..];
    }
  }

  /** A oneOf with no branch but null takes objects of any kind, and null. */
  lemma NullBranchesTakeObjects(s: Spec, node: Node, v: Json)
    requires Acyclic(s) && Plain(node) && node.enumeration.None? && node.oneOf.Branches? && node.oneOf.list != []
    requires forall b | b in node.oneOf.list :: b.types == One(NullType)
    ensures Conforms(Compile(s, node), Some(v)) <==> v.Obj? || v == Null
  {
    CompilesAsItself(s, node);
    NoRealBranch(node.oneOf.list);
    assert node.oneOf.list[0] in node.oneOf.list;
    PassthroughTakesObjects(true, v);
    assert Compile(s, node) == WithNull(PASSTHROUGH, true);
  }

  /** Where not both schemas are for objects, a combination is the later one. */
  lemma CombinationFollowsLast(left: Node, right: Node)
    requires !Objectish(left) || !Objectish(right)
    ensures Merge(Some(left), Some(right)) == Some(right) && Merge(None, Some(right)) == Some(right)
  {
  }

  // ---------------------------------------------------------------- arrays

  predicate TypedArray(node: Node)
  {
    Typed(node) && node.types.t == ArrayType
  }

  /** What an array schema asks of every item. */
  ghost predicate ItemMeets(s: Spec, node: Node, v: Json)
    requires Acyclic(s)
  {
    node.items.Some? ==> Meets(s, node.items.value, v)
  }

  function ItemSchema(s: Spec, node: Node): Schema
    requires Acyclic(s)
  {
    if node.items.Some? then Compile(s, node.items.value) else EMPTY_OBJECT
  }

  lemma ArrayForms(s: Spec, node: Node, v: Json)
    requires Acyclic(s) && TypedArray(node) && v.Arr?
    ensures Meets(s, node, v) <==>
            && Fits(|v.items|, node.bounds.minItems, node.bounds.maxItems)
            && forall i | 0 <= i < |v.items| :: ItemMeets(s, node, v.items[i])
    ensures Conforms(Compile(s, node), Some(v)) <==>
            && Fits(|v.items|, node.bounds.minItems, node.bounds.maxItems)
            && forall i | 0 <= i < |v.items| :: Conforms(ItemSchema(s, node), Some(v.items[i]))
  {
    CompilesAsItself(s, node);
    if node.items.Some? {
      assert node.items.value in Children(node);
      ArrayMeets(s, node, v);
    } else {
      assert Obeys(s, node, v) <==> ObeysOwn(s, node, v);
    }
  }

  /** Whatever compiling does to one item, it does to an array of n of them. */
  lemma Copies(s: Spec, node: Node, v: Json, n: nat)
    requires Acyclic(s) && TypedArray(node) && n >= 1 && Fits(n, node.bounds.minItems, node.bounds.maxItems)
    requires Faithful(s, node, Compile(s, node))
    ensures Conforms(ItemSchema(s, node), Some(v)) <==> ItemMeets(s, node, v)
  {
    var items := seq(n, i => v);
    ArrayForms(s, node, Arr(items));
    assert items[0] == v;
    assert Conforms(Compile(s, node), Some(Arr(items))) <==> Meets(s, node, Arr(items));
  }

  lemma SameOnItems(s: Spec, node: Node)
    requires Acyclic(s) && TypedArray(node)
    requires forall n: nat | n >= 1 && Fits(n, node.bounds.minItems, node.bounds.maxItems) ::
               forall v: Json :: Conforms(ItemSchema(s, node), Some(v)) <==> ItemMeets(s, node, v)
    ensures Faithful(s, node, Compile(s, node))
  {
    forall v: Json ensures Conforms(Compile(s, node), Some(v)) <==> Meets(s, node, v) {
      if v.Arr? {
        ArrayForms(s, node, v);
        assert |v.items| >= 1 ==> Fits(|v.items|, node.bounds.minItems, node.bounds.maxItems) ==>
          forall i | 0 <= i < |v.items| ::
            Conforms(ItemSchema(s, node), Some(v.items[i])) <==> ItemMeets(s, node, v.items[i]);
      } else {
        CompilesAsItself(s, node);
        TypedMeetsWrongType(s, node, v);
      }
    }
  }

  /** An array schema keeps its meaning exactly when its bounds leave room for the empty array only, or it has
      an item schema that keeps its own. */
  lemma ArrayFaithfulIff(s: Spec, node: Node)
    requires Acyclic(s) && TypedArray(node)
    ensures Faithful(s, node, Compile(s, node)) <==>
            || (forall n: nat | n >= 1 :: !Fits(n, node.bounds.minItems, node.bounds.maxItems))
            || (node.items.Some? && Faithful(s, node.items.value, Compile(s, node.items.value)))
  {
    assert !Conforms(EMPTY_OBJECT, Some(Bool(true)));
    if n: nat :| n >= 1 && Fits(n, node.bounds.minItems, node.bounds.maxItems) {
      if Faithful(s, node, Compile(s, node)) {
        forall v: Json ensures Conforms(ItemSchema(s, node), Some(v)) <==> ItemMeets(s, node, v) {
          Copies(s, node, v, n);
        }
        Copies(s, node, Bool(true), n);
      } else if node.items.Some? && Faithful(s, node.items.value, Compile(s, node.items.value)) {
        SameOnItems(s, node);
      }
    } else {
      SameOnItems(s, node);
    }
  }

  // ---------------------------------------------------------------- required keys

  predicate TypedObject(node: Node)
  {
    Typed(node) && node.types.t == ObjectType && DistinctProperties(PropertiesOf(node)) && !node.additional.TypedBy?
  }

  predicate RequiredDeclared(node: Node)
  {
    forall key | key in RequiredOf(node) :: Names(PropertiesOf(node), key)
  }

  /** Every required property admits some value. */
  ghost predicate Satisfiable(s: Spec, node: Node)
    requires Acyclic(s)
  {
    forall p | p in PropertiesOf(node) && p.key in RequiredOf(node) :: Admits(s, p.node)
  }

  ghost predicate Admits(s: Spec, node: Node)
    requires Acyclic(s)
  {
    exists v: Json :: Meets(s, node, v)
  }

  ghost predicate PropertiesFaithful(s: Spec, node: Node)
    requires Acyclic(s)
  {
    forall p | p in PropertiesOf(node) :: Faithful(s, p.node, Compile(s, p.node))
  }

  /** Every property holds, and no other is there unless the schema is open. */
  ghost predicate Held(s: Spec, node: Node, fields: seq<Field>)
    requires Acyclic(s)
  {
    && (forall p | p in PropertiesOf(node) :: PropertyHolds(s, node, p, fields))
    && (node.additional.Open? || forall i | 0 <= i < |fields| :: Declares(s, node, fields[i].key))
  }

  predicate RequiredThere(node: Node, fields: seq<Field>)
  {
    forall key | key in RequiredOf(node) :: Has(fields, key)
  }

  lemma ObjectForms(s: Spec, node: Node, fields: seq<Field>)
    requires Acyclic(s) && TypedObject(node) && PropertiesFaithful(s, node)
    ensures Conforms(Compile(s, node), Some(Obj(fields))) <==> Held(s, node, fields)
    ensures Meets(s, node, Obj(fields)) <==> Held(s, node, fields) && RequiredThere(node, fields)
  {
    var shape := ObjectCompiles(s, node);
    HeldConforms(s, node, Height(s, node), shape, fields);
    HeldMeets(s, node, fields);
  }

  lemma ObjectCompiles(s: Spec, node: Node) returns (shape: seq<Entry>)
    requires Acyclic(s) && TypedObject(node)
    ensures ChildrenBelow(s, node, Height(s, node))
            && shape == CompileShape(s, node, |PropertiesOf(node)|, Height(s, node))
    ensures Compile(s, node) == Of(ObjectKind(shape, node.additional.Open?), false)
  {
    CompilesAsItself(s, node);
    TypedNotNullable(s, node, Height(s, node));
    shape := CompileShape(s, node, |PropertiesOf(node)|, Height(s, node));
  }

  lemma HeldConforms(s: Spec, node: Node, h: nat, shape: seq<Entry>, fields: seq<Field>)
    requires Acyclic(s) && TypedObject(node) && PropertiesFaithful(s, node) && ChildrenBelow(s, node, h)
    requires shape == CompileShape(s, node, |PropertiesOf(node)|, h)
    ensures Conforms(Of(ObjectKind(shape, node.additional.Open?), false), Some(Obj(fields))) <==> Held(s, node, fields)
  {
    var holds := (p: Property) => PropertyHolds(s, node, p, fields);
    ShapeFaithful(s, node, h, fields, holds);
    ShapeKnows(s, node, h, fields);
    ObjectConforms(shape, node.additional.Open?, fields);
    assert (forall p | p in PropertiesOf(node) :: holds(p)) <==>
           forall p | p in PropertiesOf(node) :: PropertyHolds(s, node, p, fields);
  }

  lemma HeldMeets(s: Spec, node: Node, fields: seq<Field>)
    requires Acyclic(s) && TypedObject(node)
    ensures Meets(s, node, Obj(fields)) <==> Held(s, node, fields) && RequiredThere(node, fields)
  {
    TypedObeys(s, node, Obj(fields));
    assert Opens(s, node) == Some(true) <==> node.additional.Open?;
  }

  /** The fields hold just what these properties ask for. */
  ghost predicate Filled(s: Spec, node: Node, ps: seq<Property>, fields: seq<Field>)
    requires Acyclic(s)
  {
    (forall p | p in ps :: PropertyHolds(s, node, p, fields)) && KeysFrom(ps, fields)
  }

  ghost predicate KeysFrom(ps: seq<Property>, fields: seq<Field>)
  {
    forall i | 0 <= i < |fields| :: Names(ps, fields[i].key)
  }

  predicate Names(ps: seq<Property>, key: Str)
  {
    exists p :: p in ps && p.key == key
  }

  lemma KeysApart(ps: seq<Property>, rest: seq<Field>)
    requires ps != [] && DistinctProperties(ps) && KeysFrom(ps[1..], rest)
    ensures forall p | p in ps[1..] :: p.key != ps[0].key
    ensures !Has(rest, ps[0].key)
  {
    forall p | p in ps[1..] ensures p.key != ps[0].key {
      var j :| 0 <= j < |ps[1..]| && ps[1..][j] == p;
      assert ps[j + 1] == p;
    }
  }

  lemma KeysFromAll(ps: seq<Property>, first: seq<Field>, rest: seq<Field>)
    requires ps != [] && KeysFrom(ps[1..], rest) && |first| <= 1 && (first != [] ==> first[0].key == ps[0].key)
    ensures KeysFrom(ps, first + rest)
  {
    forall i | 0 <= i < |first + rest| ensures Names(ps, (first + rest)[i].key) {
      if i < |first| {
        assert ps[0] in ps;
      } else {
        assert Names(ps[1..], rest[i - |first|].key);
      }
    }
  }

  lemma HoldsBehind(s: Spec, node: Node, p: Property, first: seq<Field>, rest: seq<Field>)
    requires Acyclic(s) && PropertyHolds(s, node, p, rest)
    requires |first| <= 1 && (first != [] ==> first[0].key != p.key)
    ensures PropertyHolds(s, node, p, first + rest)
  {
    GetBehind(first, rest, p.key);
  }

  lemma FirstHolds(s: Spec, node: Node, p: Property, rest: seq<Field>, v: Json)
    requires Acyclic(s) && (p.key in RequiredOf(node) ==> Meets(s, p.node, v)) && !Has(rest, p.key)
    ensures PropertyHolds(s, node, p, (if p.key in RequiredOf(node) then [Field(p.key, v)] else []) + rest)
  {
    var fields := (if p.key in RequiredOf(node) then [Field(p.key, v)] else []) + rest;
    if p.key in RequiredOf(node) {
      assert fields[0] == Field(p.key, v);
    } else {
      assert fields == rest;
    }
  }

  lemma FillFirst(s: Spec, node: Node, ps: seq<Property>, rest: seq<Field>, v: Json)
    requires Acyclic(s) && ps != [] && DistinctProperties(ps) && Filled(s, node, ps[1..], rest)
    requires ps[0].key in RequiredOf(node) ==> Meets(s, ps[0].node, v)
    ensures Filled(s, node, ps, (if ps[0].key in RequiredOf(node) then [Field(ps[0].key, v)] else []) + rest)
  {
    var first := if ps[0].key in RequiredOf(node) then [Field(ps[0].key, v)] else [];
    KeysApart(ps, rest);
    KeysFromAll(ps, first, rest);
    forall p | p in ps ensures PropertyHolds(s, node, p, first + rest) {
      if p in ps[1..] {
        HoldsBehind(s, node, p, first, rest);
      } else {
        FirstHolds(s, node, ps[0], rest, v);
      }
    }
  }

  /** One more field in front changes nothing for other keys. */
  lemma GetBehind(first: seq<Field>, rest: seq<Field>, key: Str)
    requires |first| <= 1 && (first != [] ==> first[0].key != key)
    ensures Has(first + rest, key) <==> Has(rest, key)
    ensures Has(rest, key) ==> Get(first + rest, key) == Get(rest, key)
  {
    if first == [] {
      assert first + rest == rest;
    } else {
      assert (first + rest)[1..] == rest;
      assert forall i | 0 <= i < |rest| :: (first + rest)[i + 1] == rest[i];
    }
  }

  /** An object that holds what every property asks for, and nothing else. */
  lemma {:induction false} Fill(s: Spec, node: Node, ps: seq<Property>) returns (fields: seq<Field>)
    requires Acyclic(s) && DistinctProperties(ps)
    requires forall p | p in ps && p.key in RequiredOf(node) :: Admits(s, p.node)
    ensures Filled(s, node, ps, fields)
  {
    if ps == [] {
      fields := [];
    } else {
      var rest := Fill(s, node, ps[1..]);
      var v := Null;
      assert ps[0] in ps;
      if ps[0].key in RequiredOf(node) {
        v :| Meets(s, ps[0].node, v);
      }
      FillFirst(s, node, ps, rest, v);
      fields := (if ps[0].key in RequiredOf(node) then [Field(ps[0].key, v)] else []) + rest;
    }
  }

  lemma NothingHeld(s: Spec, node: Node, fields: seq<Field>)
    requires Acyclic(s) && !Satisfiable(s, node)
    ensures !Held(s, node, fields)
  {
    var p :| p in PropertiesOf(node) && p.key in RequiredOf(node) && !Admits(s, p.node);
    assert !PropertyHolds(s, node, p, fields);
  }

  lemma DeclaredAreThere(s: Spec, node: Node, fields: seq<Field>)
    requires Acyclic(s) && RequiredDeclared(node) && Held(s, node, fields)
    ensures RequiredThere(node, fields)
  {
    forall key | key in RequiredOf(node) ensures Has(fields, key) {
      var p :| p in PropertiesOf(node) && p.key == key;
      assert PropertyHolds(s, node, p, fields);
    }
  }

  lemma UndeclaredIsMissed(s: Spec, node: Node)
    requires Acyclic(s) && TypedObject(node) && PropertiesFaithful(s, node)
    requires !RequiredDeclared(node) && Satisfiable(s, node)
    ensures !Faithful(s, node, Compile(s, node))
  {
    var fields := Fill(s, node, PropertiesOf(node));
    var key :| key in RequiredOf(node) && !Names(PropertiesOf(node), key);
    assert !Has(fields, key);
    ObjectForms(s, node, fields);
    assert Conforms(Compile(s, node), Some(Obj(fields))) && !Meets(s, node, Obj(fields));
  }

  /** An object schema whose properties keep their meaning keeps its own exactly when every required key is a
      property, or else some required property admits no value, so that nothing satisfies the schema. */
  lemma RequiredFaithfulIff(s: Spec, node: Node)
    requires Acyclic(s) && TypedObject(node) && PropertiesFaithful(s, node)
    ensures Faithful(s, node, Compile(s, node)) <==> RequiredDeclared(node) || !Satisfiable(s, node)
  {
    if RequiredDeclared(node) || !Satisfiable(s, node) {
      forall v: Json ensures Conforms(Compile(s, node), Some(v)) <==> Meets(s, node, v) {
        if v.Obj? {
          ObjectForms(s, node, v.fields);
          if !Satisfiable(s, node) {
            NothingHeld(s, node, v.fields);
          } else if Held(s, node, v.fields) {
            DeclaredAreThere(s, node, v.fields);
          }
        } else {
          CompilesAsItself(s, node);
          TypedMeetsWrongType(s, node, v);
        }
      }
    } else {
      UndeclaredIsMissed(s, node);
    }
  }

  // ---------------------------------------------------------------- lists of types

  /** What the validator's schema for a type admits when there are no other keywords. */
  ghost predicate KindAdmits(t: Types, v: Json)
  {
    match t
    case One(ArrayType) => v.Arr? && forall i | 0 <= i < |v.items| :: Conforms(EMPTY_OBJECT, Some(v.items[i]))
    case One(u) => if IsScalar(u) then HasType(v, u) else v == Obj([])
    case _ => v == Obj([])
  }

  lemma {:induction false} FirstNonNullListed(ts: seq<Type>)
    ensures FirstNonNull(ts) != One(NullType)
    ensures FirstNonNull(ts).One? ==> FirstNonNull(ts).t in ts
    ensures FirstNonNull(ts).Untyped? ==> forall u | u in ts :: u == NullType
  {
    if ts != [] && ts[0] == NullType {
      FirstNonNullListed(ts[1..]);
      assert ts == [ts[0]] + ts[1..];
    }
  }

  /** A node with nothing but a list of types. */
  predicate TypeList(node: Node)
  {
    node.types.Many? && node == EMPTY.(types := node.types)
  }

  lemma TypeListMeets(s: Spec, node: Node, v: Json)
    requires Acyclic(s) && TypeList(node)
    ensures Meets(s, node, v) <==> TypeAllows(node.types, v) && (v.Obj? ==> v == Obj([]))
  {
    assert Obeys(s, node, v) <==> ObeysOwn(s, node, v);
    assert ObeysOwn(s, node, v) <==> TypeAllows(node.types, v);
    if v.Obj? && TypeAllows(node.types, v) {
      assert IsObject(s, node) && Opens(s, node) == None;
      if v.fields != [] {
        assert !Declares(s, node, v.fields[0].key);
      }
    }
  }

  lemma TypeListConforms(s: Spec, node: Node, v: Json)
    requires Acyclic(s) && TypeList(node)
    ensures Conforms(Compile(s, node), Some(v)) <==>
            if v == Null then NullType in node.types.ts else KindAdmits(FirstNonNull(node.types.ts), v)
  {
    CompilesAsItself(s, node);
    var t, h := FirstNonNull(node.types.ts), Height(s, node);
    var one := node.(types := t);
    FirstNonNullListed(node.types.ts);
    OneTypeConforms(s, one, h, v);
    WithNullAccepts(CompilePlain(s, one, h), NullType in node.types.ts, v);
  }

  lemma OneTypeConforms(s: Spec, node: Node, h: nat, v: Json)
    requires Acyclic(s) && node == EMPTY.(types := node.types) && !node.types.Many? && node.types != One(NullType)
             && ChildrenBelow(s, node, h)
    ensures Conforms(CompilePlain(s, node, h), Some(v)) <==> v != Null && KindAdmits(node.types, v)
    ensures !CompilePlain(s, node, h).nullable
  {
    assert PropertiesOf(node) == [] && CompileShape(s, node, 0, h) == [] && !IsNullable(node);
    assert v.Obj? ==> (v == Obj([]) <==> v.fields == []);
    if v.Obj? && v.fields != [] {
      assert !InShape([], v.fields[0].key);
    }
  }

  /** The list says no more than its first type, beside null and unknown names. */
  predicate SaysNoMore(ts: seq<Type>)
  {
    match FirstNonNull(ts)
    case One(ArrayType) => false
    case One(t) =>
      if IsScalar(t) then forall u | u in ts :: u in {NullType, OtherType, t} || (t == NumberType && u == IntegerType)
      else ObjectType in ts && forall u | u in ts :: u in {NullType, OtherType, ObjectType}
    case _ => false
  }

  /** A value of each type that as few other types as possible share. */
  function Sample(t: Type): Json
    requires t != OtherType
  {
    match t
    case NullType => Null
    case StringType => Json.Text([])
    case IntegerType => Num(Zero)
    case NumberType => Num(Decimal(false, [DIGIT_0 + 5], 0))
    case BooleanType => Bool(true)
    case ArrayType => Arr([Bool(true)])
    case ObjectType => Obj([])
  }

  lemma HalfIsNoInteger()
    ensures !IsInteger(Sample(NumberType).n)
  {
    var digits := [DIGIT_0 + 5];
    assert NatOf(digits) == 5 by { assert digits[..0] == []; }
    assert Power10(0 - 1) == 1.0 / 10.0;
    assert ValueOf(Sample(NumberType).n) == 0.5;
  }

  lemma SampleHasType(t: Type)
    requires t != OtherType
    ensures HasType(Sample(t), t)
  {
  }

  lemma SampleAllowed(ts: seq<Type>, t: Type)
    requires t in ts && t != OtherType
    ensures TypeAllows(Many(ts), Sample(t))
  {
    SampleHasType(t);
    var i :| 0 <= i < |ts| && ts[i] == t;
  }

  /** A list that says more than its first type admits a sample that the validator refuses. */
  lemma SaysMore(ts: seq<Type>) returns (v: Json)
    requires !SaysNoMore(ts)
    ensures var meant := TypeAllows(Many(ts), v) && (v.Obj? ==> v == Obj([]));
            meant != if v == Null then NullType in ts else KindAdmits(FirstNonNull(ts), v)
  {
    FirstNonNullListed(ts);
    HalfIsNoInteger();
    assert !Conforms(EMPTY_OBJECT, Some(Bool(true)));
    assert Sample(ArrayType).items[0] == Bool(true);
    var t := FirstNonNull(ts);
    if t == One(ArrayType) {
      SampleAllowed(ts, ArrayType);
      v := Sample(ArrayType);
    } else if t.One? && IsScalar(t.t) {
      var u :| u in ts && u !in {NullType, OtherType, t.t} && !(t.t == NumberType && u == IntegerType);
      SampleAllowed(ts, u);
      v := Sample(u);
    } else if ObjectType !in ts {
      v := Obj([]);
      assert forall i | 0 <= i < |ts| :: ts[i] != ObjectType;
    } else {
      var u :| u in ts && u !in {NullType, OtherType, ObjectType};
      SampleAllowed(ts, u);
      v := Sample(u);
    }
  }

  lemma SaysSame(ts: seq<Type>, v: Json)
    requires SaysNoMore(ts)
    ensures TypeAllows(Many(ts), v) && (v.Obj? ==> v == Obj([])) <==>
            if v == Null then NullType in ts else KindAdmits(FirstNonNull(ts), v)
  {
    FirstNonNullListed(ts);
    var t := FirstNonNull(ts);
    if v == Null {
      SampleHasType(NullType);
      assert TypeAllows(Many(ts), Null) <==> NullType in ts;
    } else if IsScalar(t.t) {
      var i :| 0 <= i < |ts| && ts[i] == t.t;
      assert HasType(v, t.t) ==> HasType(v, ts[i]);
      forall k | 0 <= k < |ts| && HasType(v, ts[k]) ensures HasType(v, t.t) {
        assert ts[k] in ts;
      }
    } else {
      var i :| 0 <= i < |ts| && ts[i] == ObjectType;
      assert v.Obj? ==> HasType(v, ts[i]);
      forall k | 0 <= k < |ts| && HasType(v, ts[k]) ensures v.Obj? {
        assert ts[k] in ts;
      }
    }
  }

  /** A list of types and nothing else keeps its meaning exactly when, beside null and names that are no types,
      it lists one scalar type, or number and then integer, or object. */
  lemma BareTypeListFaithfulIff(s: Spec, node: Node)
    requires Acyclic(s) && TypeList(node)
    ensures Faithful(s, node, Compile(s, node)) <==> SaysNoMore(node.types.ts)
  {
    var ts := node.types.ts;
    if SaysNoMore(ts) {
      forall v: Json ensures Conforms(Compile(s, node), Some(v)) <==> Meets(s, node, v) {
        TypeListConforms(s, node, v);
        TypeListMeets(s, node, v);
        SaysSame(ts, v);
      }
    } else {
      var v := SaysMore(ts);
      TypeListConforms(s, node, v);
      TypeListMeets(s, node, v);
    }
  }

  // ---------------------------------------------------------------- lists of types beside other keywords

  /** A node with a list of types and any bounds, items, properties, required keys and additional properties. */
  predicate ListNode(node: Node)
  {
    Plain(node) && node.enumeration.None? && node.oneOf.NoBranches? && node.types.Many?
  }

  function Retyped(node: Node, t: Type): Node
  {
    node.(types := One(t))
  }

  /** The type that the list is compiled as: its first name that is not null, and object when that is no type or
      there is none. */
  function CompiledAs(ts: seq<Type>): (t: Type)
    ensures t != NullType && t != OtherType
  {
    FirstNonNullListed(ts);
    match FirstNonNull(ts)
    case One(t) => if t == OtherType then ObjectType else t
    case _ => ObjectType
  }

  lemma {:induction false} HeightIgnoresType(s: Spec, node: Node, t: Type, n: nat)
    requires Acyclic(s) && n <= |Children(node)|
    ensures Children(Retyped(node, t)) == Children(node)
    ensures HeightOfFirst(s, Retyped(node, t), n) == HeightOfFirst(s, node, n)
    decreases n
  {
    assert Children(Retyped(node, t)) == Children(node);
    if n > 0 {
      HeightIgnoresType(s, node, t, n - 1);
    }
  }

  lemma ShapeIgnoresType(s: Spec, node: Node, types: Types, h: nat)
    requires Acyclic(s) && ChildrenBelow(s, node, h) && ChildrenBelow(s, node.(types := types), h)
    ensures CompileShape(s, node.(types := types), |PropertiesOf(node)|, h)
            == CompileShape(s, node, |PropertiesOf(node)|, h)
  {
    var n := |PropertiesOf(node)|;
    var a, b := CompileShape(s, node, n, h), CompileShape(s, node.(types := types), n, h);
    forall i | 0 <= i < n ensures a[i] == b[i] {
    }
  }

  /** Compiling under the type found is compiling under that type. */
  lemma FoundCompiles(s: Spec, node: Node, h: nat)
    requires Acyclic(s) && ListNode(node) && ChildrenBelow(s, node, h)
    ensures ChildrenBelow(s, node.(types := FirstNonNull(node.types.ts)), h)
    ensures ChildrenBelow(s, Retyped(node, CompiledAs(node.types.ts)), h)
    ensures CompilePlain(s, node.(types := FirstNonNull(node.types.ts)), h)
         == CompilePlain(s, Retyped(node, CompiledAs(node.types.ts)), h)
  {
    var found, t := FirstNonNull(node.types.ts), CompiledAs(node.types.ts);
    FirstNonNullListed(node.types.ts);
    assert Children(node.(types := found)) == Children(node) == Children(Retyped(node, t));
    if found != One(t) {
      CompilesAsObject(s, node, found, h);
      CompilesAsObject(s, node, One(ObjectType), h);
    }
  }

  lemma CompilesAsObject(s: Spec, node: Node, types: Types, h: nat)
    requires Acyclic(s) && ListNode(node) && ChildrenBelow(s, node, h) && ChildrenBelow(s, node.(types := types), h)
    requires types in {Untyped, One(OtherType), One(ObjectType)}
    ensures CompilePlain(s, node.(types := types), h)
         == Of(ObjectKind(CompileShape(s, node, |PropertiesOf(node)|, h),
                          node.additional.Open? || node.additional.TypedBy?), false)
  {
    ShapeIgnoresType(s, node, types, h);
  }

  lemma ListCompiles(s: Spec, node: Node)
    requires Acyclic(s) && ListNode(node)
    ensures Compile(s, node)
            == WithNull(Compile(s, Retyped(node, CompiledAs(node.types.ts))), NullType in node.types.ts)
    ensures !Compile(s, Retyped(node, CompiledAs(node.types.ts))).nullable
  {
    CompilesAsItself(s, node);
    RetypedCompiles(s, node, CompiledAs(node.types.ts));
    ListCompilesAt(s, node, Height(s, node));
  }

  lemma RetypedCompiles(s: Spec, node: Node, t: Type)
    requires Acyclic(s) && ListNode(node)
    ensures ChildrenBelow(s, Retyped(node, t), Height(s, node))
    ensures Compile(s, Retyped(node, t)) == CompilePlain(s, Retyped(node, t), Height(s, node))
  {
    RetypedHeight(s, node, t);
    CompilesAsItself(s, Retyped(node, t));
  }

  lemma RetypedHeight(s: Spec, node: Node, t: Type)
    requires Acyclic(s) && ListNode(node)
    ensures Height(s, Retyped(node, t)) == Height(s, node)
  {
    HeightIgnoresType(s, node, t, |Children(node)|);
  }

  lemma ListCompilesAt(s: Spec, node: Node, h: nat)
    requires Acyclic(s) && ListNode(node) && ChildrenBelow(s, node, h)
    requires ChildrenBelow(s, Retyped(node, CompiledAs(node.types.ts)), h)
    ensures CompilePlain(s, node, h)
            == WithNull(CompilePlain(s, Retyped(node, CompiledAs(node.types.ts)), h), NullType in node.types.ts)
    ensures !CompilePlain(s, Retyped(node, CompiledAs(node.types.ts)), h).nullable
  {
    FoundCompiles(s, node, h);
    FoundMadeNullable(s, node, h);
    TypedNotNullable(s, Retyped(node, CompiledAs(node.types.ts)), h);
  }

  lemma FoundMadeNullable(s: Spec, node: Node, h: nat)
    requires Acyclic(s) && ListNode(node) && ChildrenBelow(s, node, h)
    requires ChildrenBelow(s, node.(types := FirstNonNull(node.types.ts)), h)
    ensures CompilePlain(s, node, h)
         == WithNull(CompilePlain(s, node.(types := FirstNonNull(node.types.ts)), h), NullType in node.types.ts)
  {
    assert IsNullable(node) <==> NullType in node.types.ts;
  }

  /** A type plays its part in a schema only through the values it admits. */
  lemma RetypedAlike(s: Spec, node: Node, u: Type, t: Type, v: Json)
    requires Acyclic(s) && ListNode(node) && HasType(v, t) && Meets(s, Retyped(node, u), v)
    ensures Meets(s, Retyped(node, t), v)
  {
    MeetsNeedsType(s, Retyped(node, u), v);
    MeetsIgnoresOtherTypes(s, node, One(u), One(t), v);
  }

  /** Lists and single names that admit a value alike make alike schemas of the same keywords. */
  lemma MeetsIgnoresOtherTypes(s: Spec, node: Node, a: Types, b: Types, v: Json)
    requires Acyclic(s) && Plain(node) && node.enumeration.None? && node.oneOf.NoBranches?
    requires !a.Untyped? && !b.Untyped? && TypeAllows(a, v) && TypeAllows(b, v)
    ensures Meets(s, node.(types := a), v) <==> Meets(s, node.(types := b), v)
  {
    var x, y := node.(types := a), node.(types := b);
    OwnKeywords(s, node, a, b, v);
    assert Obeys(s, x, v) <==> ObeysOwn(s, x, v);
    assert Obeys(s, y, v) <==> ObeysOwn(s, y, v);
    if v.Obj? {
      ObjectAllowed(s, node, a, v);
      ObjectAllowed(s, node, b, v);
      assert Opens(s, x) == Opens(s, y);
      forall key ensures Declares(s, x, key) <==> Declares(s, y, key) {
        assert PropertiesOf(x) == PropertiesOf(y);
      }
    }
  }

  lemma ObjectAllowed(s: Spec, node: Node, types: Types, v: Json)
    requires Acyclic(s) && node.enumeration.None? && !types.Untyped? && TypeAllows(types, v) && v.Obj?
    ensures IsObject(s, node.(types := types))
  {
    if types.Many? {
      var i :| 0 <= i < |types.ts| && HasType(v, types.ts[i]);
      assert types.ts[i] == ObjectType;
    }
  }

  lemma OwnKeywords(s: Spec, node: Node, a: Types, b: Types, v: Json)
    requires Acyclic(s) && node.enumeration.None? && node.oneOf.NoBranches? && TypeAllows(a, v) && TypeAllows(b, v)
    ensures ObeysOwn(s, node.(types := a), v) <==> ObeysOwn(s, node.(types := b), v)
  {
    var x, y := node.(types := a), node.(types := b);
    assert Children(x) == Children(y) && PropertiesOf(x) == PropertiesOf(y) && RequiredOf(x) == RequiredOf(y);
  }

  lemma MeetsNeedsType(s: Spec, node: Node, v: Json)
    requires Acyclic(s) && Meets(s, node, v)
    ensures TypeAllows(node.types, v)
  {
    assert ObeysOwn(s, node, v);
  }

  /** A value meets a list of types just if it meets one of them. */
  lemma ListMeets(s: Spec, node: Node, v: Json)
    requires Acyclic(s) && ListNode(node)
    ensures Meets(s, node, v) <==> exists u | u in node.types.ts :: Meets(s, Retyped(node, u), v)
  {
    var ts := node.types.ts;
    assert node.(types := node.types) == node;
    if Meets(s, node, v) {
      MeetsNeedsType(s, node, v);
      var i :| 0 <= i < |ts| && HasType(v, ts[i]);
      MeetsIgnoresOtherTypes(s, node, node.types, One(ts[i]), v);
      assert ts[i] in ts;
    }
    if u :| u in ts && Meets(s, Retyped(node, u), v) {
      MeetsNeedsType(s, Retyped(node, u), v);
      var i :| 0 <= i < |ts| && ts[i] == u;
      MeetsIgnoresOtherTypes(s, node, node.types, One(u), v);
    }
  }

  lemma ConformsNeedsType(s: Spec, node: Node, v: Json)
    requires Acyclic(s) && Typed(node) && node.types.t != NullType && node.types.t != OtherType
    requires Conforms(Compile(s, node), Some(v))
    ensures HasType(v, node.types.t)
  {
    CompilesAsItself(s, node);
    TypedNotNullable(s, node, Height(s, node));
  }

  /** Some value that is not of type t satisfies the schema as one for type u. */
  ghost predicate Adds(s: Spec, node: Node, u: Type, t: Type)
    requires Acyclic(s)
  {
    exists v: Json :: !HasType(v, t) && Meets(s, Retyped(node, u), v)
  }

  /** The compiled schema stands for its type alone. */
  ghost predicate StandsAlone(s: Spec, node: Node)
    requires Acyclic(s) && ListNode(node)
  {
    var ts, t := node.types.ts, CompiledAs(node.types.ts);
    var schema := Compile(s, Retyped(node, t));
    && (if t in ts then Faithful(s, Retyped(node, t), schema) else forall v: Json :: !Conforms(schema, Some(v)))
    && forall u | u in ts && u != NullType :: !Adds(s, node, u, t)
  }

  lemma ListConforms(s: Spec, node: Node, v: Json)
    requires Acyclic(s) && ListNode(node)
    ensures var t := CompiledAs(node.types.ts);
            var schema := Compile(s, Retyped(node, t));
            && (Conforms(Compile(s, node), Some(v)) <==>
                if v == Null then NullType in node.types.ts else Conforms(schema, Some(v)))
            && (Conforms(schema, Some(v)) ==> HasType(v, t))
  {
    var t := CompiledAs(node.types.ts);
    ListCompiles(s, node);
    WithNullAccepts(Compile(s, Retyped(node, t)), NullType in node.types.ts, v);
    if Conforms(Compile(s, Retyped(node, t)), Some(v)) {
      ConformsNeedsType(s, Retyped(node, t), v);
    }
  }

  lemma NullMeetsList(s: Spec, node: Node)
    requires Acyclic(s) && ListNode(node)
    ensures Meets(s, node, Null) <==> NullType in node.types.ts
  {
    var ts := node.types.ts;
    assert Obeys(s, node, Null) <==> ObeysOwn(s, node, Null);
    assert TypeAllows(node.types, Null) <==> NullType in ts;
  }

  /** What the list means of a value of the compiled type, and of other values. */
  lemma ListMeans(s: Spec, node: Node, v: Json)
    requires Acyclic(s) && ListNode(node) && v != Null
    ensures var ts, t := node.types.ts, CompiledAs(node.types.ts);
            && (HasType(v, t) && t in ts ==> (Meets(s, node, v) <==> Meets(s, Retyped(node, t), v)))
            && (HasType(v, t) && t !in ts ==> !Meets(s, node, v))
            && (!HasType(v, t) ==>
                  (Meets(s, node, v) <==> exists u | u in ts && u != NullType :: Meets(s, Retyped(node, u), v)))
  {
    var ts, t := node.types.ts, CompiledAs(node.types.ts);
    ListMeets(s, node, v);
    forall u | u in ts && Meets(s, Retyped(node, u), v) ensures u != NullType && HasType(v, u) {
      MeetsNeedsType(s, Retyped(node, u), v);
    }
    if u :| u in ts && Meets(s, Retyped(node, u), v) {
      if HasType(v, t) {
        RetypedAlike(s, node, u, t, v);
        FirstNonNullListed(ts);
      }
    }
  }

  /** A list of types keeps its meaning, whatever the other keywords say, exactly when no other name of the list
      adds a value to the type it is compiled as, and that type, if listed, keeps its own. */
  lemma TypeListFaithfulIff(s: Spec, node: Node)
    requires Acyclic(s) && ListNode(node)
    ensures Faithful(s, node, Compile(s, node)) <==> StandsAlone(s, node)
  {
    if Faithful(s, node, Compile(s, node)) {
      FaithfulStandsAlone(s, node);
    }
    if StandsAlone(s, node) {
      forall v: Json ensures Conforms(Compile(s, node), Some(v)) <==> Meets(s, node, v) {
        AloneIsFaithful(s, node, v);
      }
    }
  }

  lemma AloneIsFaithful(s: Spec, node: Node, v: Json)
    requires Acyclic(s) && ListNode(node) && StandsAlone(s, node)
    ensures Conforms(Compile(s, node), Some(v)) <==> Meets(s, node, v)
  {
    ListConforms(s, node, v);
    if v == Null {
      NullMeetsList(s, node);
    } else {
      ListMeans(s, node, v);
    }
  }

  lemma FaithfulStandsAlone(s: Spec, node: Node)
    requires Acyclic(s) && ListNode(node) && Faithful(s, node, Compile(s, node))
    ensures StandsAlone(s, node)
  {
    var ts, t := node.types.ts, CompiledAs(node.types.ts);
    var one := Retyped(node, t);
    forall v: Json ensures t in ts ==> (Conforms(Compile(s, one), Some(v)) <==> Meets(s, one, v)) {
      FaithfulOfType(s, node, v);
    }
    forall v: Json | t !in ts ensures !Conforms(Compile(s, one), Some(v)) {
      FaithfulOfType(s, node, v);
    }
    forall u, v: Json | u in ts && u != NullType && !HasType(v, t) ensures !Meets(s, Retyped(node, u), v) {
      FaithfulOfType(s, node, v);
      if Meets(s, Retyped(node, u), v) {
        MeetsNeedsType(s, Retyped(node, u), v);
      }
    }
  }

  lemma FaithfulOfType(s: Spec, node: Node, v: Json)
    requires Acyclic(s) && ListNode(node) && Faithful(s, node, Compile(s, node))
    ensures var ts, t := node.types.ts, CompiledAs(node.types.ts);
            var one := Retyped(node, t);
            && (t in ts ==> (Conforms(Compile(s, one), Some(v)) <==> Meets(s, one, v)))
            && (t !in ts ==> !Conforms(Compile(s, one), Some(v)))
            && (v != Null && !HasType(v, t) ==> forall u | u in ts && u != NullType :: !Meets(s, Retyped(node, u), v))
  {
    var t := CompiledAs(node.types.ts);
    ListConforms(s, node, v);
    assert Conforms(Compile(s, node), Some(v)) <==> Meets(s, node, v);
    if Meets(s, Retyped(node, t), v) {
      MeetsNeedsType(s, Retyped(node, t), v);
    }
    if v != Null {
      ListMeans(s, node, v);
    }
  }

  // ---------------------------------------------------------------- instances

  const NO_SCHEMAS: Spec := Spec(map[], map[])

  const KEY_A: Str := [0x61]

  /** A required key that is no property: the meaning asks for it, the compiled schema does not. */
  lemma UndeclaredRequired()
    ensures var node := EMPTY.(types := One(ObjectType), required := Some([KEY_A]));
            Acyclic(NO_SCHEMAS) && Conforms(Compile(NO_SCHEMAS, node), Some(Obj([])))
            && !Meets(NO_SCHEMAS, node, Obj([]))
  {
    var node := EMPTY.(types := One(ObjectType), required := Some([KEY_A]));
    assert Resolve(NO_SCHEMAS, node) == Some(node);
    assert KEY_A in RequiredOf(node) && !Has([], KEY_A);
    assert !ObeysOwn(NO_SCHEMAS, node, Obj([]));
  }

  /** A list of two types besides null: the compiled schema keeps the first only. */
  lemma SecondTypeDropped()
    ensures var node := EMPTY.(types := Many([StringType, BooleanType]));
            Acyclic(NO_SCHEMAS) && !Conforms(Compile(NO_SCHEMAS, node), Some(Bool(true)))
            && Meets(NO_SCHEMAS, node, Bool(true))
  {
    var ts := [StringType, BooleanType];
    var node := EMPTY.(types := Many(ts));
    assert Resolve(NO_SCHEMAS, node) == Some(node);
    assert FirstNonNull(ts) == One(StringType);
    assert HasType(Bool(true), ts[1]);
    assert ObeysOwn(NO_SCHEMAS, node, Bool(true));
    assert Obeys(NO_SCHEMAS, node, Bool(true)) <==> ObeysOwn(NO_SCHEMAS, node, Bool(true));
  }

  /** An array without an item schema: the compiled schema admits empty objects only. */
  lemma UntypedItemsClosed()
    ensures var node := EMPTY.(types := One(ArrayType));
            Acyclic(NO_SCHEMAS) && !Conforms(Compile(NO_SCHEMAS, node), Some(Arr([Bool(true)])))
            && Meets(NO_SCHEMAS, node, Arr([Bool(true)]))
  {
    var node := EMPTY.(types := One(ArrayType));
    assert Resolve(NO_SCHEMAS, node) == Some(node);
    assert ObeysOwn(NO_SCHEMAS, node, Arr([Bool(true)]));
    assert Obeys(NO_SCHEMAS, node, Arr([Bool(true)])) <==> ObeysOwn(NO_SCHEMAS, node, Arr([Bool(true)]));
    var items := [Bool(true)];
    assert !Conforms(EMPTY_OBJECT, Some(items[0]));
  }
}
