/** What an OpenAPI schema means, and that compiling it keeps that meaning. Objects are closed unless
    additionalProperties opens them, which is the repository's reading, not the standard's. */
module SchemaMeaning {
  import opened Utf16
  import opened CanonicalJson
  import opened JsonParser
  import opened Validation
  import opened SchemaCompiler

  // ---------------------------------------------------------------- meaning

  predicate HasType(v: Json, t: Type)
  {
    match t
    case NullType => v.Null?
    case StringType => v.Text?
    case IntegerType => v.Num? && IsInteger(v.n)
    case NumberType => v.Num?
    case BooleanType => v.Bool?
    case ArrayType => v.Arr?
    case ObjectType => v.Obj?
    case OtherType => false
  }

  predicate TypeAllows(types: Types, v: Json)
  {
    match types
    case Untyped => true
    case One(t) => HasType(v, t)
    case Many(ts) => exists i | 0 <= i < |ts| :: HasType(v, ts[i])
  }

  /** Each bound speaks about values of its own type only. */
  predicate InBounds(b: Bounds, v: Json)
  {
    && (v.Text? ==> Fits(|v.s|, b.minLength, b.maxLength))
    && (v.Num? ==> Within(ValueOf(v.n), b.minimum, b.maximum))
    && (v.Arr? ==> Fits(|v.items|, b.minItems, b.maxItems))
  }

  /** Exactly one of the indices below n is admitted. */
  ghost predicate ExactlyOne(n: nat, admits: int -> bool)
  {
    exists i | 0 <= i < n :: admits(i) && forall j | 0 <= j < n && j != i :: !admits(j)
  }

  /** Every keyword of the schema holds, apart from unknown properties. */
  ghost predicate Obeys(s: Spec, node: Node, v: Json)
    requires Acyclic(s)
    decreases Level(s, node), node, 1
  {
    && (IsRef(node) && Target(s, node).Some? ==> (TargetLower(s, node); Obeys(s, Target(s, node).value, v)))
    && (node.allOf.Branches? ==>
          forall i | 0 <= i < |node.allOf.list| ::
            assert node.allOf.list[i] in Children(node); Obeys(s, node.allOf.list[i], v))
    && ObeysOwn(s, node, v)
  }

  ghost predicate ObeysOwn(s: Spec, node: Node, v: Json)
    requires Acyclic(s)
    decreases Level(s, node), node, 0
  {
    && TypeAllows(node.types, v) && InBounds(node.bounds, v)
    && (node.enumeration.Some? ==> v in node.enumeration.value)
    && (node.oneOf.Branches? ==>
          ExactlyOne(|node.oneOf.list|,
                     (i: int) => 0 <= i < |node.oneOf.list|
                     && (assert node.oneOf.list[i] in Children(node); Meets(s, node.oneOf.list[i], v))))
    && (node.items.Some? && v.Arr? ==>
          forall i | 0 <= i < |v.items| ::
            assert node.items.value in Children(node); Meets(s, node.items.value, v.items[i]))
    && (v.Obj? ==>
          && (forall p | p in PropertiesOf(node) ::
                (PropertyIsChild(node, p); Has(v.fields, p.key) ==> Meets(s, p.node, Get(v.fields, p.key))))
          && forall key | key in RequiredOf(node) :: Has(v.fields, key))
  }

  /** A value satisfies a schema. */
  ghost predicate Meets(s: Spec, node: Node, v: Json)
    requires Acyclic(s)
    decreases Level(s, node), node, 2
  {
    Obeys(s, node, v) &&
    (v.Obj? && IsObject(s, node) && Opens(s, node) != Some(true) ==>
     forall i | 0 <= i < |v.fields| :: Declares(s, node, v.fields[i].key))
  }

  /** The schema is one for objects. */
  ghost predicate IsObject(s: Spec, node: Node)
    requires Acyclic(s)
    decreases Level(s, node), node
  {
    || (node.enumeration.None? && (node.types == One(ObjectType) || (node.types.Many? && ObjectType in node.types.ts)))
    || (IsRef(node) && Target(s, node).Some? && (TargetLower(s, node); IsObject(s, Target(s, node).value)))
    || (node.allOf.Branches? &&
        exists i | 0 <= i < |node.allOf.list| ::
          assert node.allOf.list[i] in Children(node); IsObject(s, node.allOf.list[i]))
  }

  ghost predicate Declares(s: Spec, node: Node, key: Str)
    requires Acyclic(s)
    decreases Level(s, node), node
  {
    || (exists p :: p in PropertiesOf(node) && p.key == key)
    || (IsRef(node) && Target(s, node).Some? && (TargetLower(s, node); Declares(s, Target(s, node).value, key)))
    || (node.allOf.Branches? &&
        exists i | 0 <= i < |node.allOf.list| ::
          assert node.allOf.list[i] in Children(node); Declares(s, node.allOf.list[i], key))
  }

  /** Whether unknown properties are allowed, if the schema says so; a combination of several schemas
      follows the last that says so and is closed otherwise. */
  ghost function Opens(s: Spec, node: Node): Option<bool>
    requires Acyclic(s)
    decreases Level(s, node), node, |BranchesOf(node.allOf)| + 1
  {
    if IsRef(node) then
      match Target(s, node)
      case None => None
      case Some(target) => TargetLower(s, node); Opens(s, target)
    else if node.allOf.Branches? then OpensFirst(s, node, |node.allOf.list|)
    else
      match node.additional
      case Unset => None
      case Closed => Some(false)
      case _ => Some(true)
  }

  ghost function OpensFirst(s: Spec, node: Node, n: nat): Option<bool>
    requires Acyclic(s) && node.allOf.Branches? && n <= |node.allOf.list|
    decreases Level(s, node), node, n
  {
    if n == 0 then None
    else
      var part := node.allOf.list[n - 1];
      assert part in Children(node);
      var last := Opens(s, part);
      if n == 1 || last.Some? then last
      else
        match OpensFirst(s, node, n - 1)
        case Some(b) => Some(b)
        case None => Some(false)
  }

  // ---------------------------------------------------------------- the schemas that keep their meaning

  /** The enum branch ignores the type keyword except for a listed null. */
  predicate EnumFaithful(types: Types, values: seq<Json>)
  {
    && (ListsNull(types) <==> Null in values && TypeAllows(types, Null))
    && forall i | 0 <= i < |values| && values[i] != Null :: !values[i].Arr? && !values[i].Obj? <==>
      TypeAllows(types, values[i])
  }

  /** Whether null satisfies the schema, read off its keywords. */
  ghost predicate NullFree(s: Spec, node: Node)
    requires Acyclic(s)
    decreases Level(s, node), node
  {
    if IsRef(node) then Target(s, node).Some? && (TargetLower(s, node); NullFree(s, Target(s, node).value))
    else if node.allOf.Branches? then true
    else if node.enumeration.Some? then Null !in node.enumeration.value
    else if node.oneOf.Branches? then false
    else node.types.One? && node.types.t != NullType
  }

  /** A reference or an allOf without sibling keywords, or object schemas themselves. */
  ghost predicate ObjectPart(s: Spec, node: Node)
    requires Acyclic(s)
    decreases Level(s, node), node
  {
    if IsRef(node) then Target(s, node).Some? && (TargetLower(s, node); ObjectPart(s, Target(s, node).value))
    else if node.allOf.Branches? then true
    else node.enumeration.None? && node.oneOf.NoBranches? && node.types == One(ObjectType)
  }

  predicate DistinctProperties(ps: seq<Property>)
  {
    forall i, j | 0 <= i < j < |ps| :: ps[i].key != ps[j].key
  }

  ghost predicate Supported(s: Spec, node: Node)
    requires Acyclic(s)
    decreases Level(s, node), node, 2
  {
    if IsRef(node) then
      node == EMPTY.(ref := node.ref) && Target(s, node).Some?
      && (TargetLower(s, node); Supported(s, Target(s, node).value))
    else if node.allOf.Branches? then
      var parts := node.allOf.list;
      && node == EMPTY.(ref := node.ref, allOf := node.allOf) && parts != []
      && (forall i | 0 <= i < |parts| ::
          assert parts[i] in Children(node); Supported(s, parts[i]) && ObjectPart(s, parts[i]))
      && (forall i, j, key | 0 <= i < j < |parts| && Declares(s, parts[i], key) :: !Declares(s, parts[j], key))
    else SupportedPlain(s, node)
  }

  /** A node that is a type list with null and another type, or a single type. */
  predicate PairWithNull(ts: seq<Type>, t: Type)
  {
    t != NullType && (ts == [t] || ts == [t, NullType] || ts == [NullType, t])
  }

  ghost predicate SupportedPlain(s: Spec, node: Node)
    requires Acyclic(s) && Plain(node)
    decreases Level(s, node), node, 1
  {
    if node.enumeration.Some? then
      node == EMPTY.(ref := node.ref, enumeration := node.enumeration, types := node.types)
      && EnumFaithful(node.types, node.enumeration.value)
    else if node.oneOf.Branches? then
      var bs := node.oneOf.list;
      && node == EMPTY.(ref := node.ref, oneOf := node.oneOf) && |bs| == 2
      && exists i | 0 <= i < 2 ::
           bs[1 - i] == NULL_NODE && bs[i].types != One(NullType)
           && (assert bs[i] in Children(node); Supported(s, bs[i]) && NullFree(s, bs[i]))
    else
      match node.types
      case Untyped => false
      case One(t) => SupportedTyped(s, node, t)
      case Many(ts) => exists t :: PairWithNull(ts, t) && SupportedTyped(s, node, t)
  }

  ghost predicate SupportedTyped(s: Spec, node: Node, t: Type)
    requires Acyclic(s)
    decreases Level(s, node), node, 0
  {
    match t
    case StringType | IntegerType | NumberType | BooleanType => true
    case ArrayType => node.items.Some? && (assert node.items.value in Children(node); Supported(s, node.items.value))
    case ObjectType =>
      && DistinctProperties(PropertiesOf(node)) && !node.additional.TypedBy?
      && (forall p | p in PropertiesOf(node) :: (PropertyIsChild(node, p); Supported(s, p.node)))
      && forall key | key in RequiredOf(node) :: exists p :: p in PropertiesOf(node) && p.key == key
    case _ => false
  }

  // ---------------------------------------------------------------- resolving keeps the meaning

  ghost predicate SameMeaning(s: Spec, a: Node, b: Node)
    requires Acyclic(s)
  {
    && (forall v :: Obeys(s, a, v) <==> Obeys(s, b, v)) && (forall k :: Declares(s, a, k) <==> Declares(s, b, k))
    && Opens(s, a) == Opens(s, b) && (IsObject(s, a) <==> IsObject(s, b))
  }

  lemma SameMeets(s: Spec, a: Node, b: Node, v: Json)
    requires Acyclic(s) && SameMeaning(s, a, b)
    ensures Meets(s, a, v) <==> Meets(s, b, v)
  {
  }

  lemma BareObeysOwn(s: Spec, node: Node, v: Json)
    requires Acyclic(s) && node == EMPTY.(ref := node.ref, allOf := node.allOf)
    ensures ObeysOwn(s, node, v)
  {
  }

  /** The properties of an object schema. */
  ghost predicate PropertiesHold(s: Spec, ps: seq<Property>, required: seq<Str>, fields: seq<Field>)
    requires Acyclic(s)
  {
    && (forall p | p in ps :: Has(fields, p.key) ==> Meets(s, p.node, Get(fields, p.key)))
    && forall key | key in required :: Has(fields, key)
  }

  lemma TypedObeys(s: Spec, node: Node, v: Json)
    requires Acyclic(s) && Plain(node) && ObjectPart(s, node)
    ensures Obeys(s, node, v) <==> v.Obj? && PropertiesHold(s, PropertiesOf(node), RequiredOf(node), v.fields)
  {
  }

  lemma {:induction false} PutFresh(ps: seq<Property>, p: Property)
    requires DistinctProperties(ps + [p])
    ensures Put(ps, p) == ps + [p]
  {
    if ps != [] {
      var all := ps + [p];
      assert all[1..] == ps[1..] + [p];
      assert all[0].key != all[|ps|].key;
      PutFresh(ps[1..], p);
    }
  }

  lemma {:induction false} SpreadFresh(left: seq<Property>, right: seq<Property>)
    requires DistinctProperties(left + right)
    ensures Spread(left, right) == left + right
  {
    if right != [] {
      var n := |right| - 1;
      assert left + right == left + right[..n] + [right[n]];
      assert left + right[..n] == (left + right)[..|left| + n];
      SpreadFresh(left, right[..n]);
      PutFresh(left + right[..n], right[n]);
    } else {
      assert left + right == left;
    }
  }

  lemma DistinctConcat(left: seq<Property>, right: seq<Property>)
    requires DistinctProperties(left) && DistinctProperties(right)
             && forall p, q | p in left && q in right :: p.key != q.key
    ensures DistinctProperties(left + right)
  {
    var all := left + right;
    forall i, j | 0 <= i < j < |all| ensures all[i].key != all[j].key {
      assert i < |left| <= j ==> all[i] in left && all[j] in right;
    }
  }

  /** A plain object schema that is supported. */
  ghost predicate ObjectForm(s: Spec, node: Node)
    requires Acyclic(s)
  {
    Plain(node) && ObjectPart(s, node) && SupportedPlain(s, node)
  }

  ghost predicate Apart(s: Spec, a: Node, b: Node)
    requires Acyclic(s)
  {
    forall key | Declares(s, a, key) :: !Declares(s, b, key)
  }

  /** What being supported says of an object schema. */
  ghost predicate ObjectFacts(s: Spec, node: Node)
    requires Acyclic(s)
  {
    && DistinctProperties(PropertiesOf(node)) && !node.additional.TypedBy?
    && (forall p | p in PropertiesOf(node) :: Supported(s, p.node))
    && forall key | key in RequiredOf(node) :: exists p :: p in PropertiesOf(node) && p.key == key
  }

  lemma ObjectFormFacts(s: Spec, node: Node)
    requires Acyclic(s) && Plain(node) && ObjectPart(s, node)
    ensures SupportedPlain(s, node) <==> ObjectFacts(s, node)
  {
    assert SupportedPlain(s, node) <==> SupportedTyped(s, node, ObjectType);
    forall p | p in PropertiesOf(node) ensures p.node in Children(node) {
      PropertyIsChild(node, p);
    }
  }

  lemma MergedProperties(s: Spec, left: Node, right: Node)
    requires Acyclic(s) && ObjectForm(s, left) && ObjectForm(s, right) && Apart(s, left, right)
    ensures Merge(Some(left), Some(right)) == Some(MergedObject(left, right))
    ensures PropertiesOf(MergedObject(left, right)) == PropertiesOf(left) + PropertiesOf(right)
    ensures DistinctProperties(PropertiesOf(MergedObject(left, right)))
  {
    ObjectFormFacts(s, left);
    ObjectFormFacts(s, right);
    forall p, q | p in PropertiesOf(left) && q in PropertiesOf(right) ensures p.key != q.key {
      assert Declares(s, left, p.key) && Declares(s, right, q.key);
    }
    DistinctConcat(PropertiesOf(left), PropertiesOf(right));
    SpreadFresh(PropertiesOf(left), PropertiesOf(right));
  }

  lemma MergedForm(s: Spec, left: Node, right: Node)
    requires Acyclic(s) && ObjectForm(s, left) && ObjectForm(s, right) && Apart(s, left, right)
    ensures ObjectForm(s, MergedObject(left, right))
  {
    var m := MergedObject(left, right);
    MergedProperties(s, left, right);
    ObjectFormFacts(s, left);
    ObjectFormFacts(s, right);
    forall key | key in RequiredOf(m) ensures exists p :: p in PropertiesOf(m) && p.key == key {
      var from := if key in RequiredOf(left) then left else right;
      var p :| p in PropertiesOf(from) && p.key == key;
      assert p in PropertiesOf(m);
    }
    ObjectFormFacts(s, m);
  }

  lemma MergedObeys(s: Spec, left: Node, right: Node, v: Json)
    requires Acyclic(s) && ObjectForm(s, left) && ObjectForm(s, right) && Apart(s, left, right)
    ensures Obeys(s, MergedObject(left, right), v) <==> Obeys(s, left, v) && Obeys(s, right, v)
  {
    MergedProperties(s, left, right);
    MergedForm(s, left, right);
    TypedObeys(s, left, v);
    TypedObeys(s, right, v);
    TypedObeys(s, MergedObject(left, right), v);
  }

  lemma MergedDeclares(s: Spec, left: Node, right: Node, key: Str)
    requires Acyclic(s) && ObjectForm(s, left) && ObjectForm(s, right) && Apart(s, left, right)
    ensures Declares(s, MergedObject(left, right), key) <==> Declares(s, left, key) || Declares(s, right, key)
  {
    MergedProperties(s, left, right);
    assert PropertiesOf(MergedObject(left, right)) == PropertiesOf(left) + PropertiesOf(right);
    if Declares(s, left, key) {
      var p :| p in PropertiesOf(left) && p.key == key;
      assert p in PropertiesOf(MergedObject(left, right));
    }
    if Declares(s, right, key) {
      var p :| p in PropertiesOf(right) && p.key == key;
      assert p in PropertiesOf(MergedObject(left, right));
    }
  }

  /** The first n parts of an allOf mean what their merge means. */
  ghost predicate FirstMeans(s: Spec, node: Node, n: nat, r: Node)
    requires Acyclic(s) && node.allOf.Branches? && n <= |node.allOf.list|
  {
    && ObjectForm(s, r)
    && (forall v :: Obeys(s, r, v) <==> forall i | 0 <= i < n :: Obeys(s, node.allOf.list[i], v))
    && (forall k :: Declares(s, r, k) <==> exists i | 0 <= i < n :: Declares(s, node.allOf.list[i], k))
    && Opens(s, r) == OpensFirst(s, node, n)
  }

  /** A schema resolves to a plain object schema with the same meaning. */
  ghost predicate ResolvesTo(s: Spec, node: Node, r: Node)
    requires Acyclic(s)
  {
    Resolve(s, node) == Some(r) && ObjectForm(s, r) && SameMeaning(s, node, r)
  }

  lemma FirstPart(s: Spec, node: Node, r: Node)
    requires Acyclic(s) && node.allOf.Branches? && node.allOf.list != [] && ResolvesTo(s, node.allOf.list[0], r)
    ensures ResolveFirst(s, node, 1) == Some(r) && FirstMeans(s, node, 1, r)
  {
    assert ResolveFirst(s, node, 0) == Some(EMPTY);
    assert OpensFirst(s, node, 1) == Opens(s, node.allOf.list[0]);
  }

  lemma MergedOpens(s: Spec, node: Node, n: nat, left: Node, right: Node)
    requires Acyclic(s) && node.allOf.Branches? && 1 <= n < |node.allOf.list|
    requires ObjectForm(s, left) && ObjectForm(s, right)
    requires Opens(s, left) == OpensFirst(s, node, n) && Opens(s, right) == Opens(s, node.allOf.list[n])
    ensures Opens(s, MergedObject(left, right)) == OpensFirst(s, node, n + 1)
  {
    ObjectFormFacts(s, left);
    ObjectFormFacts(s, right);
  }

  lemma NextObeys(s: Spec, node: Node, n: nat, left: Node, right: Node, v: Json)
    requires Acyclic(s) && node.allOf.Branches? && n < |node.allOf.list|
    requires ObjectForm(s, left) && ObjectForm(s, right) && Apart(s, left, right)
    requires Obeys(s, left, v) <==> forall i | 0 <= i < n :: Obeys(s, node.allOf.list[i], v)
    requires Obeys(s, right, v) <==> Obeys(s, node.allOf.list[n], v)
    ensures Obeys(s, MergedObject(left, right), v) <==> forall i | 0 <= i < n + 1 :: Obeys(s, node.allOf.list[i], v)
  {
    MergedObeys(s, left, right, v);
  }

  lemma NextDeclares(s: Spec, node: Node, n: nat, left: Node, right: Node, k: Str)
    requires Acyclic(s) && node.allOf.Branches? && n < |node.allOf.list|
    requires ObjectForm(s, left) && ObjectForm(s, right) && Apart(s, left, right)
    requires Declares(s, left, k) <==> exists i | 0 <= i < n :: Declares(s, node.allOf.list[i], k)
    requires Declares(s, right, k) <==> Declares(s, node.allOf.list[n], k)
    ensures Declares(s, MergedObject(left, right), k) <==>
            exists i | 0 <= i < n + 1 :: Declares(s, node.allOf.list[i], k)
  {
    MergedDeclares(s, left, right, k);
  }

  lemma NextPart(s: Spec, node: Node, n: nat, left: Node, right: Node)
    requires Acyclic(s) && node.allOf.Branches? && 1 <= n < |node.allOf.list|
    requires ResolveFirst(s, node, n) == Some(left) && FirstMeans(s, node, n, left)
    requires ResolvesTo(s, node.allOf.list[n], right) && Apart(s, left, right)
    ensures ResolveFirst(s, node, n + 1) == Some(MergedObject(left, right))
            && FirstMeans(s, node, n + 1, MergedObject(left, right))
  {
    var parts, m := node.allOf.list, MergedObject(left, right);
    MergedProperties(s, left, right);
    MergedForm(s, left, right);
    MergedOpens(s, node, n, left, right);
    forall v ensures Obeys(s, m, v) <==> forall i | 0 <= i < n + 1 :: Obeys(s, parts[i], v) {
      NextObeys(s, node, n, left, right, v);
    }
    forall k ensures Declares(s, m, k) <==> exists i | 0 <= i < n + 1 :: Declares(s, parts[i], k) {
      NextDeclares(s, node, n, left, right, k);
    }
  }

  ghost predicate PairwiseApart(s: Spec, parts: seq<Node>)
    requires Acyclic(s)
  {
    forall i, j, key | 0 <= i < j < |parts| && Declares(s, parts[i], key) :: !Declares(s, parts[j], key)
  }

  /** The schema resolves to a plain object schema with the same meaning. */
  ghost predicate Resolvable(s: Spec, node: Node)
    requires Acyclic(s)
  {
    Resolve(s, node).Some? && ResolvesTo(s, node, Resolve(s, node).value)
  }

  lemma PrefixApart(s: Spec, node: Node, n: nat, left: Node, right: Node)
    requires Acyclic(s) && node.allOf.Branches? && n < |node.allOf.list|
    requires FirstMeans(s, node, n, left) && SameMeaning(s, node.allOf.list[n], right)
    requires PairwiseApart(s, node.allOf.list)
    ensures Apart(s, left, right)
  {
    forall key | Declares(s, left, key) ensures !Declares(s, right, key) {
      var i :| 0 <= i < n && Declares(s, node.allOf.list[i], key);
      assert !Declares(s, node.allOf.list[n], key);
    }
  }

  ghost predicate Combined(s: Spec, node: Node, n: nat)
    requires Acyclic(s) && node.allOf.Branches? && n <= |node.allOf.list|
  {
    var r := ResolveFirst(s, node, n);
    r.Some? && FirstMeans(s, node, n, r.value)
  }

  lemma CombinedStep(s: Spec, node: Node, n: nat)
    requires Acyclic(s) && node.allOf.Branches? && 1 <= n < |node.allOf.list|
    requires Combined(s, node, n) && Resolvable(s, node.allOf.list[n]) && PairwiseApart(s, node.allOf.list)
    ensures Combined(s, node, n + 1)
  {
    var left, right := ResolveFirst(s, node, n).value, Resolve(s, node.allOf.list[n]).value;
    PrefixApart(s, node, n, left, right);
    NextPart(s, node, n, left, right);
  }

  lemma CombinedFirst(s: Spec, node: Node)
    requires Acyclic(s) && node.allOf.Branches? && 1 <= |node.allOf.list| && Resolvable(s, node.allOf.list[0])
    ensures Combined(s, node, 1)
  {
    FirstPart(s, node, Resolve(s, node.allOf.list[0]).value);
  }

  ghost function Combining(s: Spec, node: Node): nat -> bool
    requires Acyclic(s) && node.allOf.Branches?
  {
    (n: nat) => n <= |node.allOf.list| && Combined(s, node, n)
  }

  lemma CombiningStep(s: Spec, node: Node, n: nat, p: nat -> bool)
    requires Acyclic(s) && node.allOf.Branches? && n < |node.allOf.list| && p == Combining(s, node)
    requires n == 0 || p(n)
    requires Resolvable(s, node.allOf.list[n]) && PairwiseApart(s, node.allOf.list)
    ensures p(n + 1)
  {
    if n == 0 {
      CombinedFirst(s, node);
    } else {
      CombinedStep(s, node, n);
    }
  }

  lemma {:induction false} Climb(p: nat -> bool, n: nat)
    requires n >= 1 && p(1) && forall k: nat | 1 <= k < n && p(k) :: p(k + 1)
    ensures p(n)
  {
    if n > 1 {
      Climb(p, n - 1);
    }
  }

  lemma AllParts(s: Spec, node: Node)
    requires Acyclic(s) && node.allOf.Branches? && 1 <= |node.allOf.list|
    requires forall i | 0 <= i < |node.allOf.list| :: Resolvable(s, node.allOf.list[i])
    requires PairwiseApart(s, node.allOf.list)
    ensures Combining(s, node)(|node.allOf.list|)
  {
    var p := Combining(s, node);
    CombiningStep(s, node, 0, p);
    forall k: nat | 1 <= k < |node.allOf.list| && p(k) ensures p(k + 1) {
      CombiningStep(s, node, k, p);
    }
    Climb(p, |node.allOf.list|);
  }

  lemma AllOfMeans(s: Spec, node: Node, r: Node)
    requires Acyclic(s) && !IsRef(node) && node.allOf.Branches? && node.allOf.list != []
    requires node == EMPTY.(ref := node.ref, allOf := node.allOf)
    requires forall i | 0 <= i < |node.allOf.list| :: IsObject(s, node.allOf.list[i])
    requires ResolveFirst(s, node, |node.allOf.list|) == Some(r) && FirstMeans(s, node, |node.allOf.list|, r)
    ensures ResolvesTo(s, node, r)
  {
    var parts := node.allOf.list;
    forall v ensures Obeys(s, node, v) <==> Obeys(s, r, v) {
      BareObeysOwn(s, node, v);
      assert Obeys(s, r, v) <==> forall i | 0 <= i < |parts| :: Obeys(s, parts[i], v);
    }
    forall k ensures Declares(s, node, k) <==> Declares(s, r, k) {
      assert Declares(s, r, k) <==> exists i | 0 <= i < |parts| :: Declares(s, parts[i], k);
    }
    assert IsObject(s, parts[0]);
  }

  lemma RefMeans(s: Spec, node: Node)
    requires Acyclic(s) && IsRef(node) && Target(s, node).Some? && node == EMPTY.(ref := node.ref)
    ensures SameMeaning(s, node, Target(s, node).value)
  {
    forall v ensures Obeys(s, node, v) <==> Obeys(s, Target(s, node).value, v) {
      BareObeysOwn(s, node, v);
    }
  }

  lemma PartsAreObjects(s: Spec, parts: seq<Node>)
    requires Acyclic(s) && forall i | 0 <= i < |parts| :: Resolvable(s, parts[i])
    ensures forall i | 0 <= i < |parts| :: IsObject(s, parts[i])
  {
    forall i | 0 <= i < |parts| ensures IsObject(s, parts[i]) {
      assert Resolvable(s, parts[i]);
    }
  }

  /** Object schemas resolve to plain ones that mean the same. */
  lemma {:induction false} ObjectResolves(s: Spec, node: Node)
    requires Acyclic(s) && Supported(s, node) && ObjectPart(s, node)
    ensures Resolvable(s, node)
    decreases Level(s, node), node
  {
    if IsRef(node) {
      TargetLower(s, node);
      ObjectResolves(s, Target(s, node).value);
      RefMeans(s, node);
    } else if node.allOf.Branches? {
      var parts := node.allOf.list;
      forall i | 0 <= i < |parts| ensures Resolvable(s, parts[i]) {
        assert parts[i] in Children(node);
        ObjectResolves(s, parts[i]);
      }
      CombinationResolves(s, node);
    }
  }

  lemma CombinationResolves(s: Spec, node: Node)
    requires Acyclic(s) && !IsRef(node) && node.allOf.Branches? && node.allOf.list != []
    requires node == EMPTY.(ref := node.ref, allOf := node.allOf)
    requires PairwiseApart(s, node.allOf.list)
             && forall i | 0 <= i < |node.allOf.list| :: Resolvable(s, node.allOf.list[i])
    ensures Resolvable(s, node)
  {
    var n := |node.allOf.list|;
    AllParts(s, node);
    PartsAreObjects(s, node.allOf.list);
    AllOfMeans(s, node, ResolveFirst(s, node, n).value);
  }

  /** Every supported schema resolves to a plain supported one that means the same. */
  lemma {:induction false} Resolves(s: Spec, node: Node)
    requires Acyclic(s) && Supported(s, node)
    ensures var r := Resolve(s, node);
            r.Some? && Plain(r.value) && SupportedPlain(s, r.value) && SameMeaning(s, node, r.value)
    decreases Level(s, node), node
  {
    if IsRef(node) {
      TargetLower(s, node);
      Resolves(s, Target(s, node).value);
      RefMeans(s, node);
    } else if node.allOf.Branches? {
      ObjectResolves(s, node);
    }
  }

  // ---------------------------------------------------------------- compiling keeps the meaning

  /** A schema compiles to a validator that accepts exactly the values that satisfy it. */
  ghost predicate Faithful(s: Spec, node: Node, schema: Schema)
    requires Acyclic(s)
  {
    forall v: Json :: Conforms(schema, Some(v)) <==> Meets(s, node, v)
  }

  lemma EnumMeets(s: Spec, node: Node, v: Json)
    requires Acyclic(s) && !IsRef(node) && node.enumeration.Some?
    requires node == EMPTY.(ref := node.ref, enumeration := node.enumeration, types := node.types)
    ensures Meets(s, node, v) <==> v in node.enumeration.value && TypeAllows(node.types, v)
  {
    assert ObeysOwn(s, node, v) <==> v in node.enumeration.value && TypeAllows(node.types, v);
    assert Obeys(s, node, v) <==> ObeysOwn(s, node, v);
    assert !IsObject(s, node);
  }

  /** An enum keeps its meaning exactly when null is listed as a type just if it is an admitted value, and
      the other values are scalars just if the type keyword admits them. */
  lemma EnumFaithfulIff(s: Spec, node: Node)
    requires Acyclic(s) && !IsRef(node) && node.enumeration.Some?
    requires node == EMPTY.(ref := node.ref, enumeration := node.enumeration, types := node.types)
    ensures Faithful(s, node, Compile(s, node)) <==> EnumFaithful(node.types, node.enumeration.value)
  {
    var values, schema := node.enumeration.value, Of(EnumKind(node.enumeration.value), ListsNull(node.types));
    assert Compile(s, node) == schema;
    forall v: Json ensures Meets(s, node, v) <==> v in values && TypeAllows(node.types, v) {
      EnumMeets(s, node, v);
    }
    if EnumFaithful(node.types, values) {
      forall v: Json ensures Conforms(schema, Some(v)) <==> Meets(s, node, v) {
      }
    }
    if Faithful(s, node, schema) {
      assert Conforms(schema, Some(Null)) <==> Meets(s, node, Null);
      forall i | 0 <= i < |values| && values[i] != Null
        ensures !values[i].Arr? && !values[i].Obj? <==> TypeAllows(node.types, values[i])
      {
        assert Conforms(schema, Some(values[i])) <==> Meets(s, node, values[i]);
      }
    }
  }
}
