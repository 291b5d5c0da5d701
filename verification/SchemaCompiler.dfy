/** The compiler from OpenAPI schemas to the validator's schemas. */
module SchemaCompiler {
  import opened Utf16
  import opened CanonicalJson
  import opened JsonParser
  import opened Validation

  // ---------------------------------------------------------------- source schemas

  datatype Type = NullType | StringType | IntegerType | NumberType | BooleanType | ArrayType | ObjectType | OtherType

  /** The type keyword: absent, a name or a list of names. */
  datatype Types = Untyped | One(t: Type) | Many(ts: seq<Type>)

  datatype Additional = Unset | Closed | Open | TypedBy(node: Node)

  datatype Property = Property(key: Str, node: Node)

  /** A list of schemas, or of properties, that may be absent. */
  datatype Branches = NoBranches | Branches(list: seq<Node>)
  datatype Table = NoTable | Table(list: seq<Property>)

  datatype Bounds = Bounds(
    minLength: Option<int>, maxLength: Option<int>, minimum: Option<real>, maximum: Option<real>,
    minItems: Option<int>, maxItems: Option<int>)

  datatype Node = Node(
    ref: Option<Str>, allOf: Branches, oneOf: Branches, enumeration: Option<seq<Json>>, types: Types, bounds: Bounds,
    items: Option<Node>, properties: Table, required: Option<seq<Str>>, additional: Additional)

  const UNBOUNDED := Bounds(None, None, None, None, None, None)

  const EMPTY := Node(None, NoBranches, NoBranches, None, Untyped, UNBOUNDED, None, NoTable, None, Unset)

  const NULL_NODE := EMPTY.(types := One(NullType))

  /** components.schemas, with a rank for every name. */
  datatype Spec = Spec(schemas: map<Str, Node>, rank: map<Str, nat>)

  const SLASH: Unit := 0x2F

  /** ref.split("/").at(-1) */
  function RefName(ref: Str): Str
  {
    if ref == [] || ref[|ref| - 1] == SLASH then [] else RefName(ref[..|ref| - 1]) + [ref[|ref| - 1]]
  }

  predicate IsRef(node: Node)
  {
    node.ref.Some? && node.ref.value != []
  }

  function Target(s: Spec, node: Node): Option<Node>
    requires IsRef(node)
  {
    var name := RefName(node.ref.value);
    if name in s.schemas then Some(s.schemas[name]) else None
  }

  function BranchesOf(b: Branches): seq<Node>
  {
    match b
    case Branches(list) => list
    case NoBranches => []
  }

  function PropertiesOf(node: Node): seq<Property>
  {
    match node.properties
    case Table(list) => list
    case NoTable => []
  }

  function RequiredOf(node: Node): seq<Str>
  {
    match node.required
    case Some(keys) => keys
    case None => []
  }

  function Nodes(properties: seq<Property>): (r: seq<Node>)
    ensures |r| == |properties| && forall i | 0 <= i < |r| :: r[i] == properties[i].node
  {
    seq(|properties|, i requires 0 <= i < |properties| => properties[i].node)
  }

  /** The schemas inside a schema that the compiler may visit. */
  function Children(node: Node): (r: seq<Node>)
    ensures forall i | 0 <= i < |r| :: r[i] < node
  {
    assert forall i | 0 <= i < |PropertiesOf(node)| :: node.properties.list[i].node < node.properties.list[i] < node;
    BranchesOf(node.allOf) + BranchesOf(node.oneOf) + (if node.items.Some? then [node.items.value] else [])
      + Nodes(PropertiesOf(node))
  }

  // ---------------------------------------------------------------- acyclic references

  function Max(a: nat, b: nat): nat
  {
    if a < b then b else a
  }

  /** One more than the highest rank referred to. */
  function Level(s: Spec, node: Node): (r: nat)
    ensures forall c | c in Children(node) :: Level(s, c) <= r
    decreases node, |Children(node)| + 1
  {
    Max(LevelOfFirst(s, node, |Children(node)|),
        if IsRef(node) && RefName(node.ref.value) in s.rank then s.rank[RefName(node.ref.value)] + 1 else 0)
  }

  function LevelOfFirst(s: Spec, node: Node, n: nat): (r: nat)
    requires n <= |Children(node)|
    ensures forall i | 0 <= i < n :: Level(s, Children(node)[i]) <= r
    decreases node, n
  {
    if n == 0 then 0 else Max(LevelOfFirst(s, node, n - 1), Level(s, Children(node)[n - 1]))
  }

  /** References only lead to lower ranks. */
  ghost predicate Acyclic(s: Spec)
  {
    forall name | name in s.schemas :: name in s.rank && Level(s, s.schemas[name]) <= s.rank[name]
  }

  lemma TargetLower(s: Spec, node: Node)
    requires Acyclic(s) && IsRef(node) && Target(s, node).Some?
    ensures Level(s, Target(s, node).value) < Level(s, node)
  {
  }

  lemma ChildNotHigher(s: Spec, node: Node, i: nat)
    requires i < |Children(node)|
    ensures Level(s, Children(node)[i]) <= Level(s, node) && Children(node)[i] < node
  {
    assert Children(node)[i] in Children(node);
  }

  /** How deep a schema is with its references followed. */
  function Height(s: Spec, node: Node): nat
    requires Acyclic(s)
    decreases Level(s, node), node, |Children(node)| + 1
  {
    if IsRef(node) then
      match Target(s, node)
      case None => 0
      case Some(target) => TargetLower(s, node); Height(s, target) + 1
    else HeightOfFirst(s, node, |Children(node)|) + 1
  }

  function HeightOfFirst(s: Spec, node: Node, n: nat): nat
    requires Acyclic(s) && n <= |Children(node)|
    decreases Level(s, node), node, n
  {
    if n == 0 then 0
    else
      ChildNotHigher(s, node, n - 1);
      Max(HeightOfFirst(s, node, n - 1), Height(s, Children(node)[n - 1]))
  }

  lemma {:induction false} ChildHeight(s: Spec, node: Node, n: nat, i: nat)
    requires Acyclic(s) && i < n <= |Children(node)|
    ensures Height(s, Children(node)[i]) <= HeightOfFirst(s, node, n)
    decreases n
  {
    if i < n - 1 {
      ChildHeight(s, node, n - 1, i);
    }
  }

  lemma ChildBelow(s: Spec, node: Node, c: Node)
    requires Acyclic(s) && !IsRef(node) && c in Children(node)
    ensures Height(s, c) < Height(s, node)
  {
    var i :| 0 <= i < |Children(node)| && Children(node)[i] == c;
    ChildHeight(s, node, |Children(node)|, i);
  }

  // ---------------------------------------------------------------- resolving references and allOf

  predicate Objectish(node: Node)
  {
    node.types == One(ObjectType) || node.properties.Table? || node.additional.Open? || node.additional.TypedBy?
  }

  function Dedupe(keys: seq<Str>): (r: seq<Str>)
    ensures forall k :: k in r <==> k in keys
  {
    if keys == [] then []
    else
      var front, last := keys[..|keys| - 1], keys[|keys| - 1];
      assert keys == front + [last];
      Dedupe(front) + if last in front then [] else [last]
  }

  /** { ...left, ...right } */
  function Spread(left: seq<Property>, right: seq<Property>): seq<Property>
  {
    if right == [] then left else Put(Spread(left, right[..|right| - 1]), right[|right| - 1])
  }

  function Put(properties: seq<Property>, p: Property): seq<Property>
  {
    if properties == [] then [p]
    else if properties[0].key == p.key then [p] + properties[1..]
    else [properties[0]] + Put(properties[1..], p)
  }

  /** The schema of the first property with a key, and of the last. */
  function Named(properties: seq<Property>, key: Str): Option<Node>
  {
    if properties == [] then None
    else if properties[0].key == key then Some(properties[0].node)
    else Named(properties[1..], key)
  }

  function LastNamed(properties: seq<Property>, key: Str): Option<Node>
  {
    if properties == [] then None
    else
      var last := properties[|properties| - 1];
      if last.key == key then Some(last.node) else LastNamed(properties[..|properties| - 1], key)
  }

  lemma {:induction false} PutNames(properties: seq<Property>, p: Property, key: Str)
    ensures Named(Put(properties, p), key) == if key == p.key then Some(p.node) else Named(properties, key)
  {
    if properties != [] {
      if properties[0].key == p.key {
        assert ([p] + properties[1..])[1..] == properties[1..];
      } else {
        PutNames(properties[1..], p, key);
        assert ([properties[0]] + Put(properties[1..], p))[1..] == Put(properties[1..], p);
      }
    }
  }

  /** Spreading right over left: a key of right has right's last schema, any other has left's. */
  lemma {:induction false} SpreadOverrides(left: seq<Property>, right: seq<Property>, key: Str)
    ensures Named(Spread(left, right), key)
         == if LastNamed(right, key).Some? then LastNamed(right, key) else Named(left, key)
  {
    if right != [] {
      var n := |right| - 1;
      SpreadOverrides(left, right[..n], key);
      PutNames(Spread(left, right[..n]), right[n], key);
    }
  }

  function MergedObject(left: Node, right: Node): Node
  {
    EMPTY.(types := One(ObjectType),
           properties := Table(Spread(PropertiesOf(left), PropertiesOf(right))),
           required := Some(Dedupe(RequiredOf(left) + RequiredOf(right))),
           additional := if right.additional != Unset then right.additional
           else if left.additional != Unset then left.additional else Closed)
  }

  /** mergeSchemas; None is null. */
  function Merge(left: Option<Node>, right: Option<Node>): Option<Node>
  {
    if left == None || left.value == EMPTY then right
    else if right == None then left
    else if Objectish(left.value) && Objectish(right.value) then Some(MergedObject(left.value, right.value))
    else right
  }

  /** resolveSchema */
  function Resolve(s: Spec, node: Node): Option<Node>
    requires Acyclic(s)
    decreases Level(s, node), node, |BranchesOf(node.allOf)| + 1
  {
    if IsRef(node) then
      match Target(s, node)
      case None => None
      case Some(target) => TargetLower(s, node); Resolve(s, target)
    else if node.allOf.Branches? then ResolveFirst(s, node, |node.allOf.list|)
    else Some(node)
  }

  /** The first n parts of an allOf, merged from left to right. */
  function ResolveFirst(s: Spec, node: Node, n: nat): Option<Node>
    requires Acyclic(s) && node.allOf.Branches? && n <= |node.allOf.list|
    decreases Level(s, node), node, n
  {
    if n == 0 then Some(EMPTY)
    else
      var part := node.allOf.list[n - 1];
      assert part in Children(node);
      Merge(ResolveFirst(s, node, n - 1), Resolve(s, part))
  }

  /** A schema without references and allOf. */
  predicate Plain(node: Node)
  {
    !IsRef(node) && node.allOf.NoBranches?
  }

  ghost predicate ChildrenBelow(s: Spec, node: Node, h: nat)
    requires Acyclic(s)
  {
    forall c | c in Children(node) :: Height(s, c) < h
  }

  lemma {:induction false} PutHolds(properties: seq<Property>, p: Property, q: Property)
    ensures q in Put(properties, p) ==> q == p || q in properties
  {
    if properties != [] && properties[0].key != p.key {
      PutHolds(properties[1..], p, q);
    }
  }

  lemma {:induction false} SpreadHolds(left: seq<Property>, right: seq<Property>, q: Property)
    ensures q in Spread(left, right) ==> q in left || q in right
  {
    if right != [] {
      SpreadHolds(left, right[..|right| - 1], q);
      PutHolds(Spread(left, right[..|right| - 1]), right[|right| - 1], q);
    }
  }

  lemma PropertyIsChild(node: Node, p: Property)
    ensures p in PropertiesOf(node) ==> p.node in Children(node)
  {
    if p in PropertiesOf(node) {
      var i :| 0 <= i < |PropertiesOf(node)| && PropertiesOf(node)[i] == p;
      assert Nodes(PropertiesOf(node))[i] == p.node;
    }
  }

  lemma MergeBelow(s: Spec, left: Option<Node>, right: Option<Node>, h: nat)
    requires Acyclic(s) && (left.Some? ==> Plain(left.value) && ChildrenBelow(s, left.value, h))
    requires right.Some? ==> Plain(right.value) && ChildrenBelow(s, right.value, h)
    ensures var m := Merge(left, right); m.Some? ==> Plain(m.value) && ChildrenBelow(s, m.value, h)
  {
    var m := Merge(left, right);
    if left.Some? && right.Some? && m == Some(MergedObject(left.value, right.value)) && m != right {
      var properties := m.value.properties.list;
      forall c | c in Children(m.value) ensures Height(s, c) < h {
        assert c in Nodes(properties);
        var i :| 0 <= i < |properties| && properties[i].node == c;
        SpreadHolds(PropertiesOf(left.value), PropertiesOf(right.value), properties[i]);
        PropertyIsChild(left.value, properties[i]);
        PropertyIsChild(right.value, properties[i]);
      }
    }
  }

  /** Plain, with parts less deep than h. */
  ghost predicate Shallow(s: Spec, r: Option<Node>, h: nat)
    requires Acyclic(s)
  {
    r.Some? ==> Plain(r.value) && ChildrenBelow(s, r.value, h)
  }

  lemma {:induction false} ResolveFirstShallow(s: Spec, node: Node, n: nat, h: nat)
    requires Acyclic(s) && node.allOf.Branches? && n <= |node.allOf.list|
    requires forall i | 0 <= i < n :: Shallow(s, Resolve(s, node.allOf.list[i]), h)
    ensures Shallow(s, ResolveFirst(s, node, n), h)
    decreases n
  {
    if n > 0 {
      ResolveFirstShallow(s, node, n - 1, h);
      MergeBelow(s, ResolveFirst(s, node, n - 1), Resolve(s, node.allOf.list[n - 1]), h);
    }
  }

  /** What is left after resolving is plain, and its parts are less deep than the schema was. */
  lemma {:induction false} ResolveBelow(s: Spec, node: Node)
    requires Acyclic(s)
    ensures Shallow(s, Resolve(s, node), Height(s, node))
    decreases Level(s, node), node
  {
    if IsRef(node) {
      if Target(s, node).Some? {
        TargetLower(s, node);
        ResolveBelow(s, Target(s, node).value);
      }
    } else if node.allOf.Branches? {
      forall i | 0 <= i < |node.allOf.list| ensures Shallow(s, Resolve(s, node.allOf.list[i]), Height(s, node)) {
        var part := node.allOf.list[i];
        assert part in Children(node);
        ChildBelow(s, node, part);
        ResolveBelow(s, part);
      }
      ResolveFirstShallow(s, node, |node.allOf.list|, Height(s, node));
    } else {
      forall c | c in Children(node) ensures Height(s, c) < Height(s, node) {
        ChildBelow(s, node, c);
      }
    }
  }

  // ---------------------------------------------------------------- compiling

  /** The schema of a missing node: any object. */
  const PASSTHROUGH: Schema := Of(ObjectKind([], true), false)

  predicate ListsNull(types: Types)
  {
    types.Many? && NullType in types.ts
  }

  predicate IsNullable(node: Node)
  {
    ListsNull(node.types) || exists i | 0 <= i < |BranchesOf(node.oneOf)| :: node.oneOf.list[i].types == One(NullType)
  }

  /** The first name that is not null; its absence leaves the schema without a type. */
  function FirstNonNull(ts: seq<Type>): (r: Types)
    ensures !r.Many?
  {
    if ts == [] then Untyped else if ts[0] != NullType then One(ts[0]) else FirstNonNull(ts[1..])
  }

  /** The first branch whose type is not null. */
  function FirstReal(nodes: seq<Node>): (r: Option<Node>)
    ensures r.Some? ==> r.value in nodes
  {
    if nodes == [] then None else if nodes[0].types != One(NullType) then Some(nodes[0]) else FirstReal(nodes[1..])
  }

  function WithNull(schema: Schema, nullable: bool): Schema
    requires schema.Of?
  {
    if nullable then schema.(nullable := true) else schema
  }

  /** toValidationSchema(node, true) */
  function Compile(s: Spec, node: Node): (r: Schema)
    requires Acyclic(s)
    ensures r.Of?
    decreases Height(s, node), 2, 0
  {
    ResolveBelow(s, node);
    match Resolve(s, node)
    case None => PASSTHROUGH
    case Some(resolved) => CompilePlain(s, resolved, Height(s, node))
  }

  function CompilePlain(s: Spec, node: Node, ghost h: nat): (r: Schema)
    requires Acyclic(s) && Plain(node) && ChildrenBelow(s, node, h)
    ensures r.Of?
    decreases h, 1, if node.types.Many? then 1 else 0
  {
    var schema :=
      if node.enumeration.Some? then Of(EnumKind(node.enumeration.value), false)
      else if node.oneOf.Branches? then
        match FirstReal(node.oneOf.list)
        case None => PASSTHROUGH
        case Some(branch) => assert branch in Children(node); Compile(s, branch)
      else
        match node.types
        case Many(ts) => CompilePlain(s, node.(types := FirstNonNull(ts)), h)
        case One(StringType) => Of(StringKind(node.bounds.minLength, node.bounds.maxLength), false)
        case One(IntegerType) => Of(IntegerKind(node.bounds.minimum, node.bounds.maximum), false)
        case One(NumberType) => Of(NumberKind(node.bounds.minimum, node.bounds.maximum), false)
        case One(BooleanType) => Of(BooleanKind, false)
        case One(ArrayType) =>
          Of(ArrayKind(if node.items.Some?
                       then assert node.items.value in Children(node); Compile(s, node.items.value) else EMPTY_OBJECT,
                       node.bounds.minItems, node.bounds.maxItems), false)
        case _ =>
          Of(ObjectKind(CompileShape(s, node, |PropertiesOf(node)|, h), node.additional.Open?
                        || node.additional.TypedBy?), false);
    WithNull(schema, IsNullable(node))
  }

  /** What `{}` compiles to: an object without properties. */
  const EMPTY_OBJECT: Schema := Of(ObjectKind([], false), false)

  function CompileProperty(s: Spec, node: Node, p: Property): Schema
    requires Acyclic(s)
    decreases Height(s, p.node), 3, 0
  {
    if p.key in RequiredOf(node) then Compile(s, p.node) else Optional(Compile(s, p.node))
  }

  lemma PropertyBelow(s: Spec, node: Node, i: nat, h: nat)
    requires Acyclic(s) && ChildrenBelow(s, node, h) && i < |PropertiesOf(node)|
    ensures Height(s, PropertiesOf(node)[i].node) < h
  {
    PropertyIsChild(node, PropertiesOf(node)[i]);
  }

  /** The first n properties of a shape. */
  function CompileShape(s: Spec, node: Node, n: nat, ghost h: nat): (r: seq<Entry>)
    requires Acyclic(s) && ChildrenBelow(s, node, h) && n <= |PropertiesOf(node)|
    ensures |r| == n
    ensures forall i | 0 <= i < n ::
              r[i] == Entry(PropertiesOf(node)[i].key, CompileProperty(s, node, PropertiesOf(node)[i]))
    decreases h, 0, n
  {
    if n == 0 then []
    else
      var p := PropertiesOf(node)[n - 1];
      PropertyBelow(s, node, n - 1, h);
      CompileShape(s, node, n - 1, h) + [Entry(p.key, CompileProperty(s, node, p))]
  }

  // ---------------------------------------------------------------- the recursive method with its loop

  method FillShape(s: Spec, node: Node, ghost h: nat) returns (shape: seq<Entry>)
    requires Acyclic(s) && ChildrenBelow(s, node, h)
    ensures shape == CompileShape(s, node, |PropertiesOf(node)|, h)
    decreases h, 0, 0
  {
    shape := [];
    var properties := PropertiesOf(node);
    var i := 0;
    while i < |properties|
      invariant 0 <= i <= |properties|
      invariant shape == CompileShape(s, node, i, h)
    {
      var p := properties[i];
      assert p in properties;
      PropertyIsChild(node, p);
      var child := ToValidationSchema(s, p.node, p.key in RequiredOf(node));
      shape := shape + [Entry(p.key, child)];
      i := i + 1;
    }
  }

  method CompileResolved(s: Spec, node: Node, ghost h: nat) returns (schema: Schema)
    requires Acyclic(s) && Plain(node) && ChildrenBelow(s, node, h)
    ensures schema == CompilePlain(s, node, h)
    decreases h, 1, if node.types.Many? then 1 else 0
  {
    var nullable := IsNullable(node);
    if node.enumeration.Some? {
      schema := Of(EnumKind(node.enumeration.value), false);
    } else if node.oneOf.Branches? {
      var firstReal := FirstReal(node.oneOf.list);
      if firstReal.None? {
        schema := PASSTHROUGH;
      } else {
        assert firstReal.value in Children(node);
        schema := ToValidationSchema(s, firstReal.value, true);
      }
    } else if node.types.Many? {
      schema := CompileResolved(s, node.(types := FirstNonNull(node.types.ts)), h);
    } else if node.types == One(StringType) {
      schema := Of(StringKind(node.bounds.minLength, node.bounds.maxLength), false);
    } else if node.types == One(IntegerType) {
      schema := Of(IntegerKind(node.bounds.minimum, node.bounds.maximum), false);
    } else if node.types == One(NumberType) {
      schema := Of(NumberKind(node.bounds.minimum, node.bounds.maximum), false);
    } else if node.types == One(BooleanType) {
      schema := Of(BooleanKind, false);
    } else if node.types == One(ArrayType) {
      var item := EMPTY_OBJECT;
      if node.items.Some? {
        assert node.items.value in Children(node);
        item := ToValidationSchema(s, node.items.value, true);
      }
      schema := Of(ArrayKind(item, node.bounds.minItems, node.bounds.maxItems), false);
    } else {
      var shape := FillShape(s, node, h);
      schema := Of(ObjectKind(shape, node.additional.Open? || node.additional.TypedBy?), false);
    }
    if nullable {
      schema := schema.(nullable := true);
    }
  }

  /** toValidationSchema */
  method ToValidationSchema(s: Spec, node: Node, required: bool) returns (schema: Schema)
    requires Acyclic(s)
    ensures schema == if required then Compile(s, node) else Optional(Compile(s, node))
    decreases Height(s, node), 2, 0
  {
    ResolveBelow(s, node);
    var resolved := Resolve(s, node);
    if resolved.None? {
      schema := PASSTHROUGH;
    } else {
      schema := CompileResolved(s, resolved.value, Height(s, node));
    }
    if !required {
      schema := Optional(schema);
    }
  }
}
