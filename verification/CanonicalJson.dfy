/** JSON values, the two printers the program uses (JSON.stringify and stableStringify), and a
    parser that shows both to be unambiguous. */
module CanonicalJson {
  import opened Utf16
  import Ordering

  // ---------------------------------------------------------------- values

  /** A finite number as ECMAScript's Number::toString sees it: its shortest decimal digits and the
      position of the decimal point, 0.d1 d2 .. dk * 10^point. Both zeros are one value: they print alike. */
  datatype NumberForm = Zero | Decimal(negative: bool, digits: Str, point: int) {
    predicate Shortest() {
      Decimal? ==>
        digits != [] && AllDigits(digits) && digits[0] != DIGIT_0 && digits[|digits| - 1] != DIGIT_0
    }
  }

  type Number = n: NumberForm | n.Shortest() witness Zero

  datatype Field = Field(key: Str, value: Json)

  datatype Json =
    | Null
    | Bool(b: bool)
    | Num(n: Number)
    | Text(s: Str)
    | Arr(items: seq<Json>)
    | Obj(fields: seq<Field>)

  function Keys(fields: seq<Field>): (r: seq<Str>)
    ensures |r| == |fields|
    ensures forall i | 0 <= i < |r| :: r[i] == fields[i].key
  {
    seq(|fields|, i requires 0 <= i < |fields| => fields[i].key)
  }

  predicate Distinct(keys: seq<Str>)
  {
    forall i, j | 0 <= i < j < |keys| :: keys[i] != keys[j]
  }

  /** An object has each key once, at every depth. */
  predicate Proper(v: Json)
  {
    match v
    case Arr(items) => forall i | 0 <= i < |items| :: Proper(items[i])
    case Obj(fields) => Distinct(Keys(fields)) && forall i | 0 <= i < |fields| :: Proper(fields[i].value)
    case _ => true
  }

  /** A value as JSON.parse produces it. */
  type JsonValue = v: Json | Proper(v) witness Null

  predicate Has(fields: seq<Field>, key: Str)
  {
    exists i | 0 <= i < |fields| :: fields[i].key == key
  }

  /** The property lookup value[key]. */
  function Get(fields: seq<Field>, key: Str): (v: Json)
    requires Has(fields, key)
    ensures exists i | 0 <= i < |fields| :: fields[i] == Field(key, v)
  {
    if fields[0].key == key then fields[0].value else Get(fields[1..], key)
  }

  lemma {:induction false} GetAt(fields: seq<Field>, i: nat)
    requires Distinct(Keys(fields)) && i < |fields|
    ensures Has(fields, fields[i].key) && Get(fields, fields[i].key) == fields[i].value
  {
    var v := Get(fields, fields[i].key);
    var j :| 0 <= j < |fields| && fields[j] == Field(fields[i].key, v);
    assert Keys(fields)[i] == Keys(fields)[j];
  }

  // ---------------------------------------------------------------- printing

  const QUOTE: Unit := 0x22
  const BACKSLASH: Unit := 0x5C
  const COMMA: Unit := 0x2C
  const OPEN_BRACKET: Unit := 0x5B
  const CLOSE_BRACKET: Unit := 0x5D
  const OPEN_BRACE: Unit := 0x7B
  const CLOSE_BRACE: Unit := 0x7D
  const LOWER_B: Unit := 0x62
  const LOWER_E: Unit := 0x65
  const LOWER_F: Unit := 0x66
  const LOWER_N: Unit := 0x6E
  const LOWER_R: Unit := 0x72
  const LOWER_T: Unit := 0x74
  const LOWER_U: Unit := 0x75
  const PLUS: Unit := 0x2B
  const NULL_TEXT: Str := [0x6E, 0x75, 0x6C, 0x6C]
  const TRUE_TEXT: Str := [0x74, 0x72, 0x75, 0x65]
  const FALSE_TEXT: Str := [0x66, 0x61, 0x6C, 0x73, 0x65]

  predicate IsLead(u: Unit) { 0xD800 <= u < 0xDC00 }
  predicate IsTrail(u: Unit) { 0xDC00 <= u < 0xE000 }

  function HexDigit(d: int): Unit
    requires 0 <= d < 16
  {
    if d < 10 then DIGIT_0 + d else 0x61 + d - 10
  }

  function UnicodeEscape(u: Unit): Str
  {
    [BACKSLASH, LOWER_U, HexDigit(u / 0x1000), HexDigit(u / 0x100 % 0x10), HexDigit(u / 0x10 % 0x10),
     HexDigit(u % 0x10)]
  }

  function EscapeUnit(u: Unit): Str
  {
    if u == QUOTE || u == BACKSLASH then [BACKSLASH, u]
    else if u == 0x08 then [BACKSLASH, LOWER_B]
    else if u == 0x09 then [BACKSLASH, LOWER_T]
    else if u == 0x0A then [BACKSLASH, LOWER_N]
    else if u == 0x0C then [BACKSLASH, LOWER_F]
    else if u == 0x0D then [BACKSLASH, LOWER_R]
    else if u < 0x20 || IsLead(u) || IsTrail(u) then UnicodeEscape(u)
    else [u]
  }

  /** The body of a JSON string: surrogate pairs pass through, lone surrogates are escaped. */
  function Escape(s: Str): Str
  {
    if s == [] then []
    else if |s| >= 2 && IsLead(s[0]) && IsTrail(s[1]) then [s[0], s[1]] + Escape(s[2..])
    else EscapeUnit(s[0]) + Escape(s[1..])
  }

  function Quote(s: Str): Str
  {
    [QUOTE] + Escape(s) + [QUOTE]
  }

  function Zeros(n: nat): (r: Str)
    ensures |r| == n
    ensures forall i | 0 <= i < n :: r[i] == DIGIT_0
  {
    if n == 0 then [] else [DIGIT_0] + Zeros(n - 1)
  }

  function ExponentText(e: int): Str
  {
    if e < 0 then [MINUS] + NatText(-e) else [PLUS] + NatText(e)
  }

  /** The four layouts of Number::toString. */
  function MagnitudeText(ds: Str, point: int): Str
    requires ds != []
  {
    if |ds| <= point <= 21 then
      ds + Zeros(point - |ds|)
    else if 0 < point <= 21 then
      ds[..point] + [DOT] + ds[point..]
    else if -6 < point <= 0 then
      [DIGIT_0] + [DOT] + (Zeros(-point) + ds)
    else if |ds| == 1 then
      ds + [LOWER_E] + ExponentText(point - 1)
    else
      [ds[0]] + [DOT] + ds[1..] + [LOWER_E] + ExponentText(point - 1)
  }

  function NumberText(n: Number): Str
  {
    match n
    case Zero => [DIGIT_0]
    case Decimal(negative, ds, point) =>
      (if negative then [MINUS] else []) + MagnitudeText(ds, point)
  }

  // How long the texts are, and which layout they have.

  /** Seven units have an escape of two; the other controls and lone surrogates have one of six, in lower case. */
  lemma EscapeShape(u: Unit)
    ensures var e := EscapeUnit(u);
            && |e| == (if u in {0x08, 0x09, 0x0A, 0x0C, 0x0D, 0x22, 0x5C} then 2
                       else if u < 0x20 || 0xD800 <= u < 0xE000 then 6 else 1)
            && forall i | 0 <= i < |e| && |e| == 6 :: !(0x41 <= e[i] <= 0x46)
  {
    if |EscapeUnit(u)| == 6 {
      assert EscapeUnit(u) == UnicodeEscape(u);
    }
  }

  /** No unit needs an escape: no control, quote or backslash, and surrogates come in pairs. */
  predicate PlainText(s: Str)
  {
    && (forall i | 0 <= i < |s| :: s[i] >= 0x20 && s[i] != 0x22 && s[i] != 0x5C)
    && (forall i | 0 <= i < |s| && 0xD800 <= s[i] < 0xDC00 :: i + 1 < |s| && 0xDC00 <= s[i + 1] < 0xE000)
    && forall i | 0 <= i < |s| && 0xDC00 <= s[i] < 0xE000 :: 0 < i && 0xD800 <= s[i - 1] < 0xDC00
  }

  lemma PlainUnit(u: Unit)
    requires u >= 0x20 && u != 0x22 && u != 0x5C && !(0xD800 <= u < 0xE000)
    ensures EscapeUnit(u) == [u]
  {
  }

  lemma PlainRest(s: Str, n: nat)
    requires PlainText(s) && n <= |s| && (0 < n < |s| ==> !(0xD800 <= s[n - 1] < 0xDC00))
    ensures PlainText(s[n..])
  {
    assert forall i | 0 <= i < |s[n..]| :: s[n..][i] == s[n + i];
  }

  lemma EscapeSplit(s: Str)
    requires s != []
    ensures Escape(s) == if |s| >= 2 && IsLead(s[0]) && IsTrail(s[1]) then [s[0], s[1]] + Escape(s[2..])
                         else EscapeUnit(s[0]) + Escape(s[1..])
  {
  }

  lemma PrefixedByPair(s: Str, t: Str)
    requires |s| >= 2 && t == s[2..]
    ensures [s[0], s[1]] + t == s
  {
  }

  lemma {:induction false} PlainTextUnescaped(s: Str)
    requires PlainText(s)
    ensures Escape(s) == s
  {
    if s != [] {
      EscapeSplit(s);
      var n: nat := if |s| >= 2 && IsLead(s[0]) && IsTrail(s[1]) then 2 else 1;
      if n == 2 {
        PrefixedByPair(s, s[2..]);
      } else {
        PlainUnit(s[0]);
      }
      PlainRest(s, n);
      PlainTextUnescaped(s[n..]);
    }
  }

  lemma {:induction false} DigitsHaveNoE(n: nat)
    ensures LOWER_E !in NatText(n)
  {
  }

  /** The text of a magnitude has an exponent just beyond 21 digits before the point and 6 zeros behind it, and
      nothing more than its digits, the zeros it needs, a point and the exponent. */
  lemma MagnitudeLayout(ds: Str, point: int)
    requires ds != [] && AllDigits(ds)
    ensures var t := MagnitudeText(ds, point);
            && (LOWER_E in t <==> point > 21 || point <= -6)
            && |t| == if point > 21 || point <= -6
                      then |ds| + (if |ds| == 1 then 0 else 1) + 2
                           + |NatText(if point < 1 then 1 - point else point - 1)|
                      else if point >= |ds| then point
                      else if point > 0 then |ds| + 1
                      else |ds| + 2 - point
  {
    if point > 21 || point <= -6 {
      assert LOWER_E in MagnitudeText(ds, point);
    }
  }

  /** JSON.stringify: fields in enumeration order. */
  function Stringify(v: Json): Str
    decreases v, 1
  {
    match v
    case Null => NULL_TEXT
    case Bool(b) => if b then TRUE_TEXT else FALSE_TEXT
    case Num(n) => NumberText(n)
    case Text(s) => Quote(s)
    case Arr(items) => [OPEN_BRACKET] + (StringifyItems(items) + [CLOSE_BRACKET])
    case Obj(fields) => [OPEN_BRACE] + (StringifyFields(fields) + [CLOSE_BRACE])
  }

  function StringifyItems(items: seq<Json>): Str
    decreases items, 0
  {
    if items == [] then []
    else if |items| == 1 then Stringify(items[0])
    else Stringify(items[0]) + [COMMA] + StringifyItems(items[1..])
  }

  function StringifyFields(fields: seq<Field>): Str
    decreases fields, 0
  {
    if fields == [] then []
    else if |fields| == 1 then StringifyField(fields[0])
    else StringifyField(fields[0]) + [COMMA] + StringifyFields(fields[1..])
  }

  function StringifyField(f: Field): Str
    decreases f, 2
  {
    Quote(f.key) + [COLON] + Stringify(f.value)
  }

  lemma KeysPresent(fields: seq<Field>, keys: seq<Str>)
    requires multiset(keys) == multiset(Keys(fields))
    ensures forall k | k in keys :: Has(fields, k)
  {
    forall k | k in keys ensures Has(fields, k) {
      assert k in multiset(keys);
      assert k in multiset(Keys(fields));
      var i :| 0 <= i < |fields| && Keys(fields)[i] == k;
      assert fields[i].key == k;
    }
  }

  /** Object.keys(value).sort() */
  function SortedKeys(fields: seq<Field>): (r: seq<Str>)
    ensures multiset(r) == multiset(Keys(fields))
    ensures forall k | k in r :: Has(fields, k)
  {
    var r := Ordering.Sort(Less, Keys(fields));
    KeysPresent(fields, r);
    r
  }

  /** stableStringify: keys in code-unit order at every depth. */
  function StableStringify(v: Json): Str
    decreases v, 1, 0
  {
    match v
    case Arr(items) => [OPEN_BRACKET] + (StableItems(items) + [CLOSE_BRACKET])
    case Obj(fields) => [OPEN_BRACE] + (StableFields(v, SortedKeys(fields)) + [CLOSE_BRACE])
    case _ => Stringify(v)
  }

  function StableItems(items: seq<Json>): Str
    decreases items, 0, 0
  {
    if items == [] then []
    else if |items| == 1 then StableStringify(items[0])
    else StableStringify(items[0]) + [COMMA] + StableItems(items[1..])
  }

  function StableFields(v: Json, keys: seq<Str>): Str
    requires v.Obj? && forall k | k in keys :: Has(v.fields, k)
    decreases v, 0, |keys|
  {
    if keys == [] then []
    else
      var value := Get(v.fields, keys[0]);
      assert value < v;
      var field := Quote(keys[0]) + [COLON] + StableStringify(value);
      if |keys| == 1 then field else field + [COMMA] + StableFields(v, keys[1..])
  }
}
