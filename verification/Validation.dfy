/** The request validator: an interpreter for the internal schema language. */
module Validation {
  import opened Utf16
  import opened CanonicalJson
  import opened JsonParser

  // ---------------------------------------------------------------- schemas

  datatype Schema = Optional(schema: Schema) | Of(kind: Kind, nullable: bool)

  datatype Kind =
    | StringKind(minLength: Option<int>, maxLength: Option<int>)
    | NumberKind(min: Option<real>, max: Option<real>)
    | IntegerKind(min: Option<real>, max: Option<real>)
    | BooleanKind
    | EnumKind(values: seq<Json>)
    | ArrayKind(item: Schema, minLength: Option<int>, maxLength: Option<int>)
    | ObjectKind(shape: seq<Entry>, allowUnknown: bool)
    | UnsupportedKind

  /** A property of a shape. */
  datatype Entry = Entry(key: Str, schema: Schema)

  predicate InShape(shape: seq<Entry>, key: Str)
  {
    exists i | 0 <= i < |shape| :: shape[i].key == key
  }

  /** A shape is a JavaScript object: it has each key once, at every depth. */
  predicate WellFormed(schema: Schema)
  {
    match schema
    case Optional(inner) => WellFormed(inner)
    case Of(ArrayKind(item, _, _), _) => WellFormed(item)
    case Of(ObjectKind(shape, _), _) =>
      && (forall i, j | 0 <= i < j < |shape| :: shape[i].key != shape[j].key)
      && forall i | 0 <= i < |shape| :: WellFormed(shape[i].schema)
    case _ => true
  }

  // ---------------------------------------------------------------- numbers

  /** 10^e */
  function Power10(e: int): (r: real)
    ensures r > 0.0
    decreases if e < 0 then -e else e
  {
    if e == 0 then 1.0 else if e > 0 then 10.0 * Power10(e - 1) else Power10(e + 1) / 10.0
  }

  /** A whole number with e zeros behind it, or with the point moved to the left. */
  function Magnitude(whole: nat, e: int): real
  {
    whole as real * Power10(e)
  }

  function ValueOf(n: Number): real
  {
    match n
    case Zero => 0.0
    case Decimal(negative, digits, point) =>
      var magnitude := Magnitude(NatOf(digits), point - |digits|);
      if negative then -magnitude else magnitude
  }

  predicate WholeIs(n: Number, k: int)
  {
    ValueOf(n) == k as real
  }

  /** Digits with the point behind them are their number; moving the point one place multiplies by ten, and a sign
      negates. */
  lemma ValueOfDecimal(negative: bool, digits: Str, point: int)
    requires Decimal(negative, digits, point).Shortest()
    ensures ValueOf(Decimal(false, digits, |digits|)) == NatOf(digits) as real
    ensures ValueOf(Decimal(negative, digits, point + 1)) == 10.0 * ValueOf(Decimal(negative, digits, point))
    ensures ValueOf(Decimal(true, digits, point)) == -ValueOf(Decimal(false, digits, point))
  {
    MagnitudeShifts(NatOf(digits), point - |digits|);
  }

  lemma MagnitudeShifts(whole: nat, e: int)
    ensures Magnitude(whole, 0) == whole as real && Magnitude(whole, e + 1) == 10.0 * Magnitude(whole, e)
  {
    PowerShifts(e);
    TenTimes(whole as real, Power10(e));
  }

  lemma PowerShifts(e: int)
    ensures Power10(e + 1) == 10.0 * Power10(e)
  {
  }

  lemma TenTimes(x: real, y: real)
    ensures x * (10.0 * y) == 10.0 * (x * y)
  {
  }

  /** Number.isInteger */
  predicate IsInteger(n: Number)
    ensures IsInteger(n) <==> exists k: int :: WholeIs(n, k)
  {
    assert WholeIs(n, ValueOf(n).Floor) <==> ValueOf(n).Floor as real == ValueOf(n);
    ValueOf(n).Floor as real == ValueOf(n)
  }

  predicate Within(x: real, min: Option<real>, max: Option<real>)
    ensures !Within(x, min, max) <==> (min.Some? && x < min.value) || (max.Some? && max.value < x)
  {
    (min.Some? ==> x >= min.value) && (max.Some? ==> x <= max.value)
  }

  predicate Fits(length: int, min: Option<int>, max: Option<int>)
    ensures !Fits(length, min, max) <==> (min.Some? && length < min.value) || (max.Some? && max.value < length)
  {
    (min.Some? ==> length >= min.value) && (max.Some? ==> length <= max.value)
  }

  /** values.includes(v): objects and arrays are compared by identity and so never included. */
  predicate Includes(values: seq<Json>, v: Json)
    ensures Includes(values, v) <==>
            (v.Null? || v.Bool? || v.Num? || v.Text?) && exists i :: 0 <= i < |values| && values[i] == v
  {
    !v.Arr? && !v.Obj? && v in values
  }

  // ---------------------------------------------------------------- what a schema accepts

  /** The property lookup value[key]; None for undefined. */
  function Lookup(fields: seq<Field>, key: Str): Option<Json>
  {
    if Has(fields, key) then Some(Get(fields, key)) else None
  }

  /** The values a schema is meant to accept; None is undefined. */
  ghost predicate Conforms(schema: Schema, value: Option<Json>)
    decreases schema
  {
    match schema
    case Optional(inner) => value.None? || Conforms(inner, value)
    case Of(kind, nullable) =>
      value.Some? &&
      var v := value.value;
      if v == Null then nullable
      else
        match kind
        case StringKind(min, max) => v.Text? && Fits(|v.s|, min, max)
        case NumberKind(min, max) => v.Num? && Within(ValueOf(v.n), min, max)
        case IntegerKind(min, max) => v.Num? && IsInteger(v.n) && Within(ValueOf(v.n), min, max)
        case BooleanKind => v.Bool?
        case EnumKind(values) => Includes(values, v)
        case ArrayKind(item, min, max) =>
          v.Arr? && Fits(|v.items|, min, max) && forall i | 0 <= i < |v.items| :: Conforms(item, Some(v.items[i]))
        case ObjectKind(shape, allowUnknown) =>
          && v.Obj?
          && (forall i | 0 <= i < |shape| :: Conforms(shape[i].schema, Lookup(v.fields, shape[i].key)))
          && (allowUnknown || forall i | 0 <= i < |v.fields| :: InShape(shape, v.fields[i].key))
        case UnsupportedKind => false
  }

  // ---------------------------------------------------------------- what the validator returns

  datatype Code = InvalidField | UnknownField

  /** An issue, before its path is joined with dots. */
  datatype Issue = Issue(path: seq<Str>, code: Code)

  datatype Outcome = Outcome(ok: bool, value: Option<Json>, issues: seq<Issue>)

  function Unless(good: bool, path: seq<Str>): seq<Issue>
  {
    if good then [] else [Issue(path, InvalidField)]
  }

  function LengthIssues(length: int, min: Option<int>, max: Option<int>, path: seq<Str>): seq<Issue>
  {
    Unless(min.Some? ==> length >= min.value, path) + Unless(max.Some? ==> length <= max.value, path)
  }

  function Issues(schema: Schema, value: Option<Json>, path: seq<Str>): seq<Issue>
    decreases schema, 1, 0
  {
    match schema
    case Optional(inner) => if value.None? then [] else Issues(inner, value, path)
    case Of(kind, nullable) =>
      if value == Some(Null) then Unless(nullable, path)
      else
        match kind
        case StringKind(min, max) => Unless(value.Some? && value.value.Text? && Fits(|value.value.s|, min, max), path)
        case NumberKind(min, max) =>
          Unless(value.Some? && value.value.Num? && Within(ValueOf(value.value.n), min, max), path)
        case IntegerKind(min, max) =>
          Unless(value.Some? && value.value.Num? && IsInteger(value.value.n)
                 && Within(ValueOf(value.value.n), min, max), path)
        case BooleanKind => Unless(value.Some? && value.value.Bool?, path)
        case EnumKind(values) => Unless(value.Some? && Includes(values, value.value), path)
        case ArrayKind(item, min, max) =>
          if value.None? || !value.value.Arr? then [Issue(path, InvalidField)]
          else LengthIssues(|value.value.items|, min, max, path) + ItemIssues(item, value.value.items, path)
        case ObjectKind(shape, allowUnknown) =>
          if value.None? || !value.value.Obj? then [Issue(path, InvalidField)]
          else
            ShapeIssues(schema, |shape|, value.value.fields, path)
            + if allowUnknown then [] else UnknownIssues(shape, value.value.fields, path)
        case UnsupportedKind => [Issue(path, InvalidField)]
  }

  /** The issues of an array's items. */
  function ItemIssues(item: Schema, items: seq<Json>, path: seq<Str>): seq<Issue>
    decreases item, 2, |items|
  {
    if items == [] then []
    else
      var n := |items| - 1;
      ItemIssues(item, items[..n], path) + Issues(item, Some(items[n]), path + [NatText(n)])
  }

  /** The issues of the first n properties of a shape. */
  function ShapeIssues(schema: Schema, n: nat, fields: seq<Field>, path: seq<Str>): seq<Issue>
    requires schema.Of? && schema.kind.ObjectKind? && n <= |schema.kind.shape|
    decreases schema, 0, n
  {
    if n == 0 then []
    else
      var e := schema.kind.shape[n - 1];
      ShapeIssues(schema, n - 1, fields, path) + Issues(e.schema, Lookup(fields, e.key), path + [e.key])
  }

  function UnknownIssues(shape: seq<Entry>, fields: seq<Field>, path: seq<Str>): seq<Issue>
  {
    if fields == [] then []
    else
      var n := |fields| - 1;
      UnknownIssues(shape, fields[..n], path)
        + if InShape(shape, fields[n].key) then [] else [Issue(path + [fields[n].key], UnknownField)]
  }

  /** The value that is handed on when there is no issue. */
  function Normal(schema: Schema, value: Option<Json>): Option<Json>
    decreases schema, 1, 0
  {
    match schema
    case Optional(inner) => if value.None? then None else Normal(inner, value)
    case Of(kind, nullable) =>
      if value.None? || value.value == Null then value
      else
        match kind
        case ArrayKind(item, _, _) =>
          if value.value.Arr? then Some(Arr(NormalItems(item, value.value.items))) else value
        case ObjectKind(shape, allowUnknown) =>
          if value.value.Obj? then
            Some(Obj(NormalShape(schema, |shape|, value.value.fields)
                     + if allowUnknown then UnknownFields(shape, value.value.fields) else []))
          else value
        case _ => value
  }

  function NormalItems(item: Schema, items: seq<Json>): seq<Json>
    decreases item, 2, |items|
  {
    if items == [] then []
    else
      var n := |items| - 1;
      var v := Normal(item, Some(items[n]));
      NormalItems(item, items[..n]) + if v.Some? then [v.value] else []
  }

  function NormalShape(schema: Schema, n: nat, fields: seq<Field>): seq<Field>
    requires schema.Of? && schema.kind.ObjectKind? && n <= |schema.kind.shape|
    decreases schema, 0, n
  {
    if n == 0 then []
    else
      var e := schema.kind.shape[n - 1];
      var v := Normal(e.schema, Lookup(fields, e.key));
      NormalShape(schema, n - 1, fields) + if v.Some? then [Field(e.key, v.value)] else []
  }

  function UnknownFields(shape: seq<Entry>, fields: seq<Field>): seq<Field>
  {
    if fields == [] then []
    else
      var n := |fields| - 1;
      UnknownFields(shape, fields[..n]) + if InShape(shape, fields[n].key) then [] else [fields[n]]
  }

  /** validateValue */
  function Validate(schema: Schema, value: Option<Json>, path: seq<Str>): Outcome
  {
    var issues := Issues(schema, value, path);
    if issues == [] then Outcome(true, Normal(schema, value), []) else Outcome(false, None, issues)
  }

  // ---------------------------------------------------------------- exactness

  lemma AllButLast(item: Schema, items: seq<Json>)
    requires items != []
    ensures var n := |items| - 1;
            (forall i | 0 <= i < |items| :: Conforms(item, Some(items[i])))
            <==> (forall i | 0 <= i < n :: Conforms(item, Some(items[..n][i]))) && Conforms(item, Some(items[n]))
  {
    assert forall i | 0 <= i < |items| - 1 :: items[i] == items[..|items| - 1][i];
  }

  lemma {:induction false} ItemsExact(item: Schema, items: seq<Json>, path: seq<Str>)
    ensures ItemIssues(item, items, path) == [] <==> forall i | 0 <= i < |items| :: Conforms(item, Some(items[i]))
    decreases item, 2, |items|
  {
    if items != [] {
      var n := |items| - 1;
      ItemsExact(item, items[..n], path);
      Exact(item, Some(items[n]), path + [NatText(n)]);
      AllButLast(item, items);
    }
  }

  lemma {:induction false} ShapeExact(schema: Schema, n: nat, fields: seq<Field>, path: seq<Str>)
    requires schema.Of? && schema.kind.ObjectKind? && n <= |schema.kind.shape|
    ensures var shape := schema.kind.shape;
            ShapeIssues(schema, n, fields, path) == [] <==>
            forall i | 0 <= i < n :: Conforms(shape[i].schema, Lookup(fields, shape[i].key))
    decreases schema, 0, n
  {
    if n > 0 {
      var e := schema.kind.shape[n - 1];
      ShapeExact(schema, n - 1, fields, path);
      Exact(e.schema, Lookup(fields, e.key), path + [e.key]);
    }
  }

  lemma {:induction false} UnknownExact(shape: seq<Entry>, fields: seq<Field>, path: seq<Str>)
    ensures UnknownIssues(shape, fields, path) == [] <==> forall i | 0 <= i < |fields| :: InShape(shape, fields[i].key)
  {
    if fields != [] {
      var n := |fields| - 1;
      UnknownExact(shape, fields[..n], path);
      assert forall i | 0 <= i < n :: fields[i] == fields[..n][i];
    }
  }

  lemma {:induction false} Exact(schema: Schema, value: Option<Json>, path: seq<Str>)
    ensures Issues(schema, value, path) == [] <==> Conforms(schema, value)
    decreases schema, 1, 0
  {
    match schema
    case Optional(inner) => if value.Some? { Exact(inner, value, path); }
    case Of(ArrayKind(item, min, max), _) =>
      if value.Some? && value.value.Arr? {
        ItemsExact(item, value.value.items, path);
      }
    case Of(ObjectKind(shape, allowUnknown), _) =>
      if value.Some? && value.value.Obj? {
        ShapeExact(schema, |shape|, value.value.fields, path);
        UnknownExact(shape, value.value.fields, path);
      }
    case _ =>
  }

  /** Validator exactness: validation fails exactly when it returns an issue, and it succeeds exactly for
      the values the schema is meant to accept. */
  lemma ValidateExact(schema: Schema, value: Option<Json>, path: seq<Str>)
    ensures Validate(schema, value, path).ok <==> Validate(schema, value, path).issues == []
    ensures Validate(schema, value, path).ok <==> Conforms(schema, value)
  {
    Exact(schema, value, path);
  }

  // ---------------------------------------------------------------- the recursive method with its loops

  lemma ItemsStep(item: Schema, items: seq<Json>, i: nat, path: seq<Str>)
    requires i < |items|
    ensures ItemIssues(item, items[..i + 1], path)
            == ItemIssues(item, items[..i], path) + Issues(item, Some(items[i]), path + [NatText(i)])
    ensures var v := Normal(item, Some(items[i]));
            NormalItems(item, items[..i + 1]) == NormalItems(item, items[..i]) + if v.Some? then [v.value] else []
  {
    assert items[..i + 1][..i] == items[..i];
  }

  lemma UnknownStep(shape: seq<Entry>, fields: seq<Field>, i: nat, path: seq<Str>)
    requires i < |fields|
    ensures UnknownIssues(shape, fields[..i + 1], path)
         == UnknownIssues(shape, fields[..i], path)
           + if InShape(shape, fields[i].key) then [] else [Issue(path + [fields[i].key], UnknownField)]
    ensures UnknownFields(shape, fields[..i + 1]) == UnknownFields(shape, fields[..i])
            + if InShape(shape, fields[i].key) then [] else [fields[i]]
  {
    assert fields[..i + 1][..i] == fields[..i];
  }

  /** The loop over the items of an array. */
  method ValidateItems(item: Schema, items: seq<Json>, path: seq<Str>)
    returns (issues: seq<Issue>, normalized: seq<Json>)
    ensures issues == ItemIssues(item, items, path)
    ensures issues == [] ==> normalized == NormalItems(item, items)
    decreases item, 2
  {
    issues, normalized := [], [];
    var i := 0;
    while i < |items|
      invariant 0 <= i <= |items|
      invariant issues == ItemIssues(item, items[..i], path)
      invariant issues == [] ==> normalized == NormalItems(item, items[..i])
    {
      ItemsStep(item, items, i, path);
      var result := ValidateValue(item, Some(items[i]), path + [NatText(i)]);
      if !result.ok {
        issues := issues + result.issues;
      } else if result.value.Some? {
        normalized := normalized + [result.value.value];
      }
      i := i + 1;
    }
    assert items[..i] == items;
  }

  /** The array branch. */
  method ValidateArray(schema: Schema, items: seq<Json>, path: seq<Str>) returns (r: Outcome)
    requires schema.Of? && schema.kind.ArrayKind?
    ensures r == Validate(schema, Some(Arr(items)), path)
    decreases schema, 0
  {
    var min, max := schema.kind.minLength, schema.kind.maxLength;
    var issues: seq<Issue> := [];
    if min.Some? && |items| < min.value {
      issues := issues + [Issue(path, InvalidField)];
    }
    if max.Some? && |items| > max.value {
      issues := issues + [Issue(path, InvalidField)];
    }
    assert issues == LengthIssues(|items|, min, max, path);
    var more, normalized := ValidateItems(schema.kind.item, items, path);
    issues := issues + more;
    return if issues == [] then Outcome(true, Some(Arr(normalized)), []) else Outcome(false, None, issues);
  }

  /** The object branch. */
  method ValidateObject(schema: Schema, fields: seq<Field>, path: seq<Str>) returns (r: Outcome)
    requires schema.Of? && schema.kind.ObjectKind?
    ensures r == Validate(schema, Some(Obj(fields)), path)
    decreases schema, 0
  {
    var shape := schema.kind.shape;
    var issues: seq<Issue>, normalized: seq<Field> := [], [];
    var n := 0;
    while n < |shape|
      invariant 0 <= n <= |shape|
      invariant issues == ShapeIssues(schema, n, fields, path)
      invariant issues == [] ==> normalized == NormalShape(schema, n, fields)
    {
      var key := shape[n].key;
      var result := ValidateValue(shape[n].schema, Lookup(fields, key), path + [key]);
      if !result.ok {
        issues := issues + result.issues;
      } else if result.value.Some? {
        normalized := normalized + [Field(key, result.value.value)];
      }
      n := n + 1;
    }
    assert issues + [] == issues && normalized + [] == normalized;
    if !schema.kind.allowUnknown {
      var unknown := UnknownKeys(shape, fields, path);
      issues := issues + unknown;
    } else {
      var more := CopyUnknown(shape, fields);
      normalized := normalized + more;
    }
    return if issues == [] then Outcome(true, Some(Obj(normalized)), []) else Outcome(false, None, issues);
  }

  method UnknownKeys(shape: seq<Entry>, fields: seq<Field>, path: seq<Str>) returns (issues: seq<Issue>)
    ensures issues == UnknownIssues(shape, fields, path)
  {
    issues := [];
    var i := 0;
    while i < |fields|
      invariant 0 <= i <= |fields|
      invariant issues == UnknownIssues(shape, fields[..i], path)
    {
      UnknownStep(shape, fields, i, path);
      if !InShape(shape, fields[i].key) {
        issues := issues + [Issue(path + [fields[i].key], UnknownField)];
      }
      i := i + 1;
    }
    assert fields[..i] == fields;
  }

  method CopyUnknown(shape: seq<Entry>, fields: seq<Field>) returns (copied: seq<Field>)
    ensures copied == UnknownFields(shape, fields)
  {
    copied := [];
    var i := 0;
    while i < |fields|
      invariant 0 <= i <= |fields|
      invariant copied == UnknownFields(shape, fields[..i])
    {
      UnknownStep(shape, fields, i, []);
      if !InShape(shape, fields[i].key) {
        copied := copied + [fields[i]];
      }
      i := i + 1;
    }
    assert fields[..i] == fields;
  }

  /** validateValue */
  method ValidateValue(schema: Schema, value: Option<Json>, path: seq<Str>) returns (r: Outcome)
    ensures r == Validate(schema, value, path)
    decreases schema, 1
  {
    match schema
    case Optional(inner) =>
      if value.None? {
        return Outcome(true, None, []);
      }
      r := ValidateValue(inner, value, path);
    case Of(kind, nullable) =>
      if value == Some(Null) {
        return if nullable then Outcome(true, value, []) else Outcome(false, None, [Issue(path, InvalidField)]);
      }
      if kind.ArrayKind? && value.Some? && value.value.Arr? {
        r := ValidateArray(schema, value.value.items, path);
      } else if kind.ObjectKind? && value.Some? && value.value.Obj? {
        r := ValidateObject(schema, value.value.fields, path);
      } else {
        var ok := value.Some? && ScalarAccepts(kind, value.value);
        r := if ok then Outcome(true, value, []) else Outcome(false, None, [Issue(path, InvalidField)]);
      }
  }

  /** The checks of the kinds without parts. */
  predicate ScalarAccepts(kind: Kind, v: Json)
  {
    match kind
    case StringKind(min, max) => v.Text? && Fits(|v.s|, min, max)
    case NumberKind(min, max) => v.Num? && Within(ValueOf(v.n), min, max)
    case IntegerKind(min, max) => v.Num? && IsInteger(v.n) && Within(ValueOf(v.n), min, max)
    case BooleanKind => v.Bool?
    case EnumKind(values) => Includes(values, v)
    case _ => false
  }
}
