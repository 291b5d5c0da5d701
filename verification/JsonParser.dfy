/** A JSON parser used as the reference reading of printed text: it recovers the printed value from
    the text followed by anything. */
module JsonParser {
  import opened Utf16
  import opened CanonicalJson

  datatype Option<+T> = None | Some(value: T)
  datatype Parsed<+T> = Failed | Read(value: T, rest: Str)

  // ---------------------------------------------------------------- strings

  function HexValue(u: Unit): (r: Option<int>)
    ensures r.Some? ==> 0 <= r.value < 16
  {
    if DIGIT_0 <= u <= DIGIT_9 then Some(u - DIGIT_0)
    else if 0x61 <= u <= 0x66 then Some(u - 0x61 + 10)
    else if 0x41 <= u <= 0x46 then Some(u - 0x41 + 10)
    else None
  }

  function Hex4(s: Unit, t: Unit, u: Unit, v: Unit): (r: Option<Unit>)
  {
    var a, b, c, d := HexValue(s), HexValue(t), HexValue(u), HexValue(v);
    if a.Some? && b.Some? && c.Some? && d.Some? then
      Some(a.value * 0x1000 + b.value * 0x100 + c.value * 0x10 + d.value)
    else None
  }

  function Unescaped(u: Unit): Option<Unit>
  {
    if u == QUOTE || u == BACKSLASH || u == 0x2F then Some(u)
    else if u == LOWER_B then Some(0x08)
    else if u == LOWER_T then Some(0x09)
    else if u == LOWER_N then Some(0x0A)
    else if u == LOWER_F then Some(0x0C)
    else if u == LOWER_R then Some(0x0D)
    else None
  }

  /** Reads one source character of a string body: the unit it denotes and the text after it. */
  function ReadUnit(t: Str): (r: Parsed<Unit>)
    requires t != []
    ensures r.Read? ==> |r.rest| < |t|
  {
    if t[0] == BACKSLASH then
      if |t| >= 6 && t[1] == LOWER_U then
        var h := Hex4(t[2], t[3], t[4], t[5]);
        if h.Some? then Read(h.value, t[6..]) else Failed
      else if |t| >= 2 && Unescaped(t[1]).Some? then Read(Unescaped(t[1]).value, t[2..])
      else Failed
    else if t[0] < 0x20 then Failed
    else Read(t[0], t[1..])
  }

  /** Reads a string body up to its closing quote. */
  function ReadString(t: Str): (r: Parsed<Str>)
    ensures r.Read? ==> |r.rest| < |t|
    decreases |t|
  {
    if t == [] then Failed
    else if t[0] == QUOTE then Read([], t[1..])
    else
      var u := ReadUnit(t);
      if u.Failed? then Failed
      else
        var s := ReadString(u.rest);
        if s.Failed? then Failed else Read([u.value] + s.value, s.rest)
  }

  lemma HexDigitRoundTrip(d: int)
    requires 0 <= d < 16
    ensures HexValue(HexDigit(d)) == Some(d)
  {
  }

  lemma HexDigitsOf(u: Unit)
    ensures u == u / 0x1000 * 0x1000 + u / 0x100 % 0x10 * 0x100 + u / 0x10 % 0x10 * 0x10 + u % 0x10
  {
    assert u / 0x10 / 0x10 == u / 0x100 && u / 0x100 / 0x10 == u / 0x1000;
  }

  lemma HexRoundTrip(u: Unit)
    ensures var e := UnicodeEscape(u); Hex4(e[2], e[3], e[4], e[5]) == Some(u)
  {
    HexDigitRoundTrip(u / 0x1000);
    HexDigitRoundTrip(u / 0x100 % 0x10);
    HexDigitRoundTrip(u / 0x10 % 0x10);
    HexDigitRoundTrip(u % 0x10);
    HexDigitsOf(u);
  }

  lemma ReadUnicodeEscape(u: Unit, rest: Str)
    ensures ReadUnit(UnicodeEscape(u) + rest) == Read(u, rest)
  {
    HexRoundTrip(u);
    var e := UnicodeEscape(u);
    var t := e + rest;
    assert t[..6] == e && t[6..] == rest;
    assert t[0] == e[0] && t[1] == e[1] && t[2] == e[2] && t[3] == e[3] && t[4] == e[4] && t[5] == e[5];
  }

  lemma ReadEscapedUnit(u: Unit, rest: Str)
    ensures var t := EscapeUnit(u) + rest;
            t != [] && t[0] != QUOTE && ReadUnit(t) == Read(u, rest)
  {
    var e := EscapeUnit(u);
    var t := e + rest;
    if |e| == 6 {
      ReadUnicodeEscape(u, rest);
    } else if |e| == 2 {
      assert t[0] == e[0] && t[1] == e[1] && t[2..] == rest;
    } else {
      assert t[1..] == rest;
    }
  }

  lemma ReadStringStep(u: Unit, t: Str, more: Str)
    requires t != [] && t[0] != QUOTE && ReadUnit(t) == Read(u, more)
    ensures ReadString(t) == (match ReadString(more)
                              case Failed => Failed
                              case Read(s, rest) => Read([u] + s, rest))
  {
  }

  lemma ReadPairStep(a: Unit, b: Unit, tail: Str, s: Str, rest: Str)
    requires IsLead(a) && IsTrail(b) && ReadString(tail) == Read(s, rest)
    ensures ReadString([a] + ([b] + tail)) == Read([a, b] + s, rest)
  {
    assert ([b] + tail)[1..] == tail && ([a] + ([b] + tail))[1..] == [b] + tail;
    ReadStringStep(b, [b] + tail, tail);
    ReadStringStep(a, [a] + ([b] + tail), [b] + tail);
    assert [a] + ([b] + s) == [a, b] + s;
  }

  lemma ReadUnitStep(u: Unit, tail: Str, s: Str, rest: Str)
    requires ReadString(tail) == Read(s, rest)
    ensures ReadString(EscapeUnit(u) + tail) == Read([u] + s, rest)
  {
    ReadEscapedUnit(u, tail);
    ReadStringStep(u, EscapeUnit(u) + tail, tail);
  }

  lemma EscapedText(head: Str, escaped: Str, rest: Str)
    ensures head + escaped + [QUOTE] + rest == head + (escaped + [QUOTE] + rest)
  {
  }

  lemma EscapePair(s: Str)
    requires |s| >= 2 && IsLead(s[0]) && IsTrail(s[1])
    ensures Escape(s) == [s[0], s[1]] + Escape(s[2..])
  {
  }

  lemma EscapeSingle(s: Str)
    requires s != [] && !(|s| >= 2 && IsLead(s[0]) && IsTrail(s[1]))
    ensures Escape(s) == EscapeUnit(s[0]) + Escape(s[1..])
  {
  }

  lemma ReadEscapedPair(s: Str, rest: Str)
    requires |s| >= 2 && IsLead(s[0]) && IsTrail(s[1])
             && ReadString(Escape(s[2..]) + [QUOTE] + rest) == Read(s[2..], rest)
    ensures ReadString(Escape(s) + [QUOTE] + rest) == Read(s, rest)
  {
    var tail := Escape(s[2..]) + [QUOTE] + rest;
    ReadPairStep(s[0], s[1], tail, s[2..], rest);
    PairText(s, rest);
    assert s == [s[0], s[1]] + s[2..];
  }

  lemma PairText(s: Str, rest: Str)
    requires |s| >= 2 && IsLead(s[0]) && IsTrail(s[1])
    ensures Escape(s) + [QUOTE] + rest == [s[0]] + ([s[1]] + (Escape(s[2..]) + [QUOTE] + rest))
  {
    EscapePair(s);
    EscapedText([s[0], s[1]], Escape(s[2..]), rest);
  }

  lemma ReadEscapedSingle(s: Str, rest: Str)
    requires s != [] && !(|s| >= 2 && IsLead(s[0]) && IsTrail(s[1]))
             && ReadString(Escape(s[1..]) + [QUOTE] + rest) == Read(s[1..], rest)
    ensures ReadString(Escape(s) + [QUOTE] + rest) == Read(s, rest)
  {
    SingleText(s, rest);
    ReadUnitStep(s[0], Escape(s[1..]) + [QUOTE] + rest, s[1..], rest);
    assert s == [s[0]] + s[1..];
  }

  lemma SingleText(s: Str, rest: Str)
    requires s != [] && !(|s| >= 2 && IsLead(s[0]) && IsTrail(s[1]))
    ensures Escape(s) + [QUOTE] + rest == EscapeUnit(s[0]) + (Escape(s[1..]) + [QUOTE] + rest)
  {
    EscapeSingle(s);
    EscapedText(EscapeUnit(s[0]), Escape(s[1..]), rest);
  }

  lemma {:induction false} ReadEscaped(s: Str, rest: Str)
    ensures ReadString(Escape(s) + [QUOTE] + rest) == Read(s, rest)
  {
    if s == [] {
      assert Escape(s) + [QUOTE] + rest == [QUOTE] + rest;
    } else if |s| >= 2 && IsLead(s[0]) && IsTrail(s[1]) {
      ReadEscaped(s[2..], rest);
      ReadEscapedPair(s, rest);
    } else {
      ReadEscaped(s[1..], rest);
      ReadEscapedSingle(s, rest);
    }
  }

  // ---------------------------------------------------------------- numbers

  predicate IsNumberUnit(u: Unit)
  {
    IsDigit(u) || u == MINUS || u == PLUS || u == DOT || u == LOWER_E
  }

  /** How many leading units of t can belong to a number. */
  function NumberRun(t: Str): (n: nat)
    ensures n <= |t|
    ensures forall i | 0 <= i < n :: IsNumberUnit(t[i])
    ensures n < |t| ==> !IsNumberUnit(t[n])
  {
    if t == [] || !IsNumberUnit(t[0]) then 0 else 1 + NumberRun(t[1..])
  }

  function DropLeadingZeros(ds: Str): (r: Str)
    ensures |r| <= |ds|
    ensures r != [] ==> r[0] != DIGIT_0
    ensures AllDigits(ds) ==> AllDigits(r)
  {
    if ds == [] || ds[0] != DIGIT_0 then ds else DropLeadingZeros(ds[1..])
  }

  function DropTrailingZeros(ds: Str): (r: Str)
    ensures r <= ds
    ensures r != [] ==> r[|r| - 1] != DIGIT_0
  {
    if ds == [] || ds[|ds| - 1] != DIGIT_0 then ds else DropTrailingZeros(ds[..|ds| - 1])
  }

  /** The number with decimal digits `ds`, decimal point after the first `point` of them. */
  function Normalize(negative: bool, ds: Str, point: int): Number
    requires AllDigits(ds)
  {
    var front := DropLeadingZeros(ds);
    var digits := DropTrailingZeros(front);
    if digits == [] then Zero else Decimal(negative, digits, point - (|ds| - |front|))
  }

  /** An exponent: an optional sign and digits. */
  function ReadExponent(t: Str): Option<int>
  {
    if |t| >= 2 && t[0] == MINUS && AllDigits(t[1..]) then Some(-(NatOf(t[1..]) as int))
    else if |t| >= 2 && t[0] == PLUS && AllDigits(t[1..]) then Some(NatOf(t[1..]))
    else if t != [] && AllDigits(t) then Some(NatOf(t))
    else None
  }

  /** A mantissa, with an optional decimal point, scaled by 10^e. */
  function ReadMantissa(negative: bool, m: Str, e: int): Option<Number>
  {
    var dot := IndexOf(DOT, m);
    var whole := m[..dot];
    var fraction := if dot < |m| then m[dot + 1..] else [];
    if whole != [] && AllDigits(whole) && AllDigits(fraction) then
      Some(Normalize(negative, whole + fraction, |whole| + e))
    else None
  }

  function ReadMagnitude(negative: bool, t: Str): Option<Number>
  {
    var split := IndexOf(LOWER_E, t);
    if split == |t| then ReadMantissa(negative, t, 0)
    else
      var e := ReadExponent(t[split + 1..]);
      if e.None? then None else ReadMantissa(negative, t[..split], e.value)
  }

  function ReadNumberToken(t: Str): Option<Number>
  {
    if t != [] && t[0] == MINUS then ReadMagnitude(true, t[1..]) else ReadMagnitude(false, t)
  }

  lemma {:induction false} DropLeadingZerosOf(n: nat, ds: Str)
    requires ds == [] || ds[0] != DIGIT_0
    ensures DropLeadingZeros(Zeros(n) + ds) == ds
  {
    if n == 0 {
      assert Zeros(n) + ds == ds;
    } else {
      assert (Zeros(n) + ds)[1..] == Zeros(n - 1) + ds;
      DropLeadingZerosOf(n - 1, ds);
    }
  }

  lemma {:induction false} DropTrailingZerosOf(ds: Str, n: nat)
    requires ds == [] || ds[|ds| - 1] != DIGIT_0
    ensures DropTrailingZeros(ds + Zeros(n)) == ds
  {
    if n == 0 {
      assert ds + Zeros(n) == ds;
    } else {
      var t := ds + Zeros(n);
      assert t[..|t| - 1] == ds + Zeros(n - 1);
      DropTrailingZerosOf(ds, n - 1);
    }
  }

  lemma NormalizeTrailing(negative: bool, ds: Str, trail: nat, point: int)
    requires Decimal(negative, ds, point).Shortest()
    ensures AllDigits(ds + Zeros(trail))
    ensures Normalize(negative, ds + Zeros(trail), point) == Decimal(negative, ds, point)
  {
    DropTrailingZerosOf(ds, trail);
  }

  lemma NormalizeLeading(negative: bool, lead: nat, ds: Str, point: int)
    requires Decimal(negative, ds, point).Shortest()
    ensures AllDigits(Zeros(lead) + ds)
    ensures Normalize(negative, Zeros(lead) + ds, point + lead) == Decimal(negative, ds, point)
  {
    DropLeadingZerosOf(lead, ds);
  }

  lemma DigitsExclude(t: Str)
    requires AllDigits(t)
    ensures LOWER_E !in t && DOT !in t
  {
  }

  lemma ReadExponentOf(e: int)
    ensures ReadExponent(ExponentText(e)) == Some(e)
  {
    if e < 0 {
      NatRoundTrip(-e);
      assert ExponentText(e)[1..] == NatText(-e);
    } else {
      NatRoundTrip(e);
      assert ExponentText(e)[1..] == NatText(e);
    }
  }

  lemma ReadMantissaWhole(negative: bool, m: Str, e: int)
    requires m != [] && AllDigits(m)
    ensures ReadMantissa(negative, m, e) == Some(Normalize(negative, m, |m| + e))
  {
    IndexOfAbsent(DOT, m);
    assert m[..|m|] == m && m + [] == m;
  }

  lemma ReadMantissaPoint(negative: bool, whole: Str, fraction: Str, e: int)
    requires whole != [] && AllDigits(whole) && AllDigits(fraction)
    ensures ReadMantissa(negative, whole + [DOT] + fraction, e)
         == Some(Normalize(negative, whole + fraction, |whole| + e))
  {
    var m := whole + [DOT] + fraction;
    IndexOfSeparator(DOT, whole, fraction);
    assert m[..|whole|] == whole && m[|whole| + 1..] == fraction;
  }

  lemma ReadMagnitudeExponent(negative: bool, m: Str, e: int)
    requires LOWER_E !in m
    ensures ReadMagnitude(negative, m + [LOWER_E] + ExponentText(e)) == ReadMantissa(negative, m, e)
  {
    var t := m + [LOWER_E] + ExponentText(e);
    IndexOfSeparator(LOWER_E, m, ExponentText(e));
    assert t[..|m|] == m && t[|m| + 1..] == ExponentText(e);
    ReadExponentOf(e);
  }

  lemma ReadMagnitudePlain(negative: bool, m: Str)
    requires LOWER_E !in m
    ensures ReadMagnitude(negative, m) == ReadMantissa(negative, m, 0)
  {
    IndexOfAbsent(LOWER_E, m);
  }

  lemma ReadWholeNumber(negative: bool, m: Str)
    requires m != [] && AllDigits(m)
    ensures ReadMagnitude(negative, m) == Some(Normalize(negative, m, |m|))
  {
    DigitsExclude(m);
    ReadMagnitudePlain(negative, m);
    ReadMantissaWhole(negative, m, 0);
  }

  lemma PointExcludesE(whole: Str, fraction: Str)
    requires AllDigits(whole) && AllDigits(fraction)
    ensures LOWER_E !in whole + [DOT] + fraction
  {
    DigitsExclude(whole);
    DigitsExclude(fraction);
  }

  lemma ReadPointNumber(negative: bool, whole: Str, fraction: Str)
    requires whole != [] && AllDigits(whole) && AllDigits(fraction)
    ensures ReadMagnitude(negative, whole + [DOT] + fraction) == Some(Normalize(negative, whole + fraction, |whole|))
  {
    PointExcludesE(whole, fraction);
    ReadMagnitudePlain(negative, whole + [DOT] + fraction);
    ReadMantissaPoint(negative, whole, fraction, 0);
  }

  lemma ReadIntegerLayout(negative: bool, ds: Str, point: int)
    requires Decimal(negative, ds, point).Shortest() && |ds| <= point
    ensures ReadMagnitude(negative, ds + Zeros(point - |ds|)) == Some(Decimal(negative, ds, point))
  {
    var m := ds + Zeros(point - |ds|);
    NormalizeTrailing(negative, ds, point - |ds|, point);
    assert AllDigits(m) && |m| == point;
    ReadWholeNumber(negative, m);
  }

  lemma NormalizeShortest(negative: bool, ds: Str, point: int)
    requires Decimal(negative, ds, point).Shortest()
    ensures Normalize(negative, ds, point) == Decimal(negative, ds, point)
  {
  }

  lemma DigitParts(a: Str, b: Str)
    requires AllDigits(a + b)
    ensures AllDigits(a) && AllDigits(b)
  {
    assert forall i | 0 <= i < |a| :: (a + b)[i] == a[i];
    assert forall i | 0 <= i < |b| :: (a + b)[|a| + i] == b[i];
  }

  lemma ReadMantissaOf(negative: bool, whole: Str, fraction: Str, ds: Str, e: int, m: Str)
    requires whole != [] && ds == whole + fraction && Decimal(negative, ds, |whole| + e).Shortest()
    requires m == whole + [DOT] + fraction
    ensures LOWER_E !in m && ReadMantissa(negative, m, e) == Some(Decimal(negative, ds, |whole| + e))
  {
    DigitParts(whole, fraction);
    PointExcludesE(whole, fraction);
    ReadMantissaPoint(negative, whole, fraction, e);
    NormalizeShortest(negative, ds, |whole| + e);
  }

  lemma ReadPointOf(negative: bool, whole: Str, fraction: Str, ds: Str)
    requires whole != [] && ds == whole + fraction && Decimal(negative, ds, |whole|).Shortest()
    ensures ReadMagnitude(negative, whole + [DOT] + fraction) == Some(Decimal(negative, ds, |whole|))
  {
    var m := whole + [DOT] + fraction;
    ReadMantissaOf(negative, whole, fraction, ds, 0, m);
    ReadMagnitudePlain(negative, m);
  }

  lemma ReadPointLayout(negative: bool, ds: Str, point: int)
    requires Decimal(negative, ds, point).Shortest() && 0 < point < |ds|
    ensures ReadMagnitude(negative, ds[..point] + [DOT] + ds[point..]) == Some(Decimal(negative, ds, point))
  {
    assert ds == ds[..point] + ds[point..];
    ReadPointOf(negative, ds[..point], ds[point..], ds);
  }

  lemma ReadFractionLayout(negative: bool, ds: Str, point: int)
    requires Decimal(negative, ds, point).Shortest() && point <= 0
    ensures ReadMagnitude(negative, [DIGIT_0] + [DOT] + (Zeros(-point) + ds)) == Some(Decimal(negative, ds, point))
  {
    var fraction := Zeros(-point) + ds;
    var all := [DIGIT_0] + fraction;
    assert all == Zeros(1 - point) + ds;
    NormalizeLeading(negative, 1 - point, ds, point);
    assert fraction == all[1..];
    ReadPointNumber(negative, [DIGIT_0], fraction);
  }

  lemma ReadDigitExponent(negative: bool, ds: Str, point: int)
    requires Decimal(negative, ds, point).Shortest() && |ds| == 1
    ensures ReadMagnitude(negative, ds + [LOWER_E] + ExponentText(point - 1)) == Some(Decimal(negative, ds, point))
  {
    NormalizeShortest(negative, ds, point);
    ReadMagnitudeExponent(negative, ds, point - 1);
    ReadMantissaWhole(negative, ds, point - 1);
  }

  lemma ReadDigitsExponent(negative: bool, ds: Str, point: int)
    requires Decimal(negative, ds, point).Shortest() && |ds| > 1
    ensures ReadMagnitude(negative, [ds[0]] + [DOT] + ds[1..] + [LOWER_E] + ExponentText(point - 1))
            == Some(Decimal(negative, ds, point))
  {
    assert ds == [ds[0]] + ds[1..];
    var m := [ds[0]] + [DOT] + ds[1..];
    ReadMantissaOf(negative, [ds[0]], ds[1..], ds, point - 1, m);
    ReadMagnitudeExponent(negative, m, point - 1);
  }

  lemma ReadExponentLayout(negative: bool, ds: Str, point: int)
    requires Decimal(negative, ds, point).Shortest()
    ensures |ds| == 1 ==>
              ReadMagnitude(negative, ds + [LOWER_E] + ExponentText(point - 1)) == Some(Decimal(negative, ds, point))
    ensures |ds| > 1 ==>
              ReadMagnitude(negative, [ds[0]] + [DOT] + ds[1..] + [LOWER_E] + ExponentText(point - 1))
              == Some(Decimal(negative, ds, point))
  {
    if |ds| == 1 {
      ReadDigitExponent(negative, ds, point);
    } else {
      ReadDigitsExponent(negative, ds, point);
    }
  }

  /** All four layouts of Number::toString read back as the number. */
  lemma ReadMagnitudeOf(negative: bool, ds: Str, point: int)
    requires Decimal(negative, ds, point).Shortest()
    ensures ReadMagnitude(negative, MagnitudeText(ds, point)) == Some(Decimal(negative, ds, point))
  {
    if |ds| <= point <= 21 {
      ReadIntegerLayout(negative, ds, point);
    } else if 0 < point <= 21 {
      ReadPointLayout(negative, ds, point);
    } else if -6 < point <= 0 {
      ReadFractionLayout(negative, ds, point);
    } else {
      ReadExponentLayout(negative, ds, point);
    }
  }

  predicate AllNumberUnits(t: Str)
  {
    forall i | 0 <= i < |t| :: IsNumberUnit(t[i])
  }

  lemma AllNumberUnitsConcat(a: Str, b: Str)
    requires AllNumberUnits(a) && AllNumberUnits(b)
    ensures AllNumberUnits(a + b)
  {
  }

  lemma MagnitudeTextShape(ds: Str, point: int)
    requires ds != [] && AllDigits(ds)
    ensures var t := MagnitudeText(ds, point);
            t != [] && IsDigit(t[0]) && AllNumberUnits(t)
  {
    var t := MagnitudeText(ds, point);
    if |ds| <= point <= 21 {
      AllNumberUnitsConcat(ds, Zeros(point - |ds|));
    } else if 0 < point <= 21 {
      AllNumberUnitsConcat(ds[..point], [DOT]);
      AllNumberUnitsConcat(ds[..point] + [DOT], ds[point..]);
    } else if -6 < point <= 0 {
      AllNumberUnitsConcat(Zeros(-point), ds);
      AllNumberUnitsConcat([DIGIT_0] + [DOT], Zeros(-point) + ds);
    } else {
      var m := if |ds| == 1 then ds else [ds[0]] + [DOT] + ds[1..];
      var e := ExponentText(point - 1);
      assert AllNumberUnits(m) && AllNumberUnits(e);
      AllNumberUnitsConcat(m, [LOWER_E]);
      AllNumberUnitsConcat(m + [LOWER_E], e);
      assert t == m + [LOWER_E] + e;
    }
  }

  lemma NumberTextShape(n: Number)
    ensures var t := NumberText(n);
            t != [] && (IsDigit(t[0]) || t[0] == MINUS) && AllNumberUnits(t)
  {
    if n.Decimal? {
      MagnitudeTextShape(n.digits, n.point);
      var m := MagnitudeText(n.digits, n.point);
      AllNumberUnitsConcat(if n.negative then [MINUS] else [], m);
    }
  }

  lemma ReadNumberTokenOf(n: Number)
    ensures ReadNumberToken(NumberText(n)) == Some(n)
  {
    match n
    case Zero =>
      ReadMagnitudePlain(false, [DIGIT_0]);
      ReadMantissaWhole(false, [DIGIT_0], 0);
      assert DropLeadingZeros([DIGIT_0]) == DropLeadingZeros([]) by { assert [DIGIT_0][1..] == []; }
    case Decimal(negative, ds, point) =>
      ReadMagnitudeOf(negative, ds, point);
      MagnitudeTextShape(ds, point);
      assert if negative then NumberText(n)[1..] == MagnitudeText(ds, point)
             else NumberText(n) == MagnitudeText(ds, point);
  }

  // ---------------------------------------------------------------- values

  predicate StartsWith(t: Str, prefix: Str)
  {
    prefix <= t
  }

  function ReadValue(t: Str): (r: Parsed<Json>)
    ensures r.Read? ==> |r.rest| < |t|
    decreases |t|, 1
  {
    if t == [] then Failed
    else if t[0] == QUOTE then
      (match ReadString(t[1..])
       case Failed => Failed
       case Read(s, rest) => Read(Json.Text(s), rest))
    else if t[0] == OPEN_BRACKET then
      if |t| >= 2 && t[1] == CLOSE_BRACKET then Read(Arr([]), t[2..])
      else
        (match ReadItems(t[1..])
         case Failed => Failed
         case Read(items, rest) => Read(Arr(items), rest))
    else if t[0] == OPEN_BRACE then
      if |t| >= 2 && t[1] == CLOSE_BRACE then Read(Obj([]), t[2..])
      else
        (match ReadFields(t[1..])
         case Failed => Failed
         case Read(fields, rest) => Read(Obj(fields), rest))
    else if IsDigit(t[0]) || t[0] == MINUS then
      var n := NumberRun(t);
      (match ReadNumberToken(t[..n])
       case None => Failed
       case Some(number) => Read(Json.Num(number), t[n..]))
    else if StartsWith(t, NULL_TEXT) then Read(Json.Null, t[4..])
    else if StartsWith(t, TRUE_TEXT) then Read(Json.Bool(true), t[4..])
    else if StartsWith(t, FALSE_TEXT) then Read(Json.Bool(false), t[5..])
    else Failed
  }

  /** One or more items and the closing bracket. */
  function ReadItems(t: Str): (r: Parsed<seq<Json>>)
    ensures r.Read? ==> |r.rest| < |t|
    decreases |t|, 2
  {
    var item := ReadValue(t);
    if item.Failed? || item.rest == [] then Failed
    else if item.rest[0] == CLOSE_BRACKET then Read([item.value], item.rest[1..])
    else if item.rest[0] == COMMA then
      (match ReadItems(item.rest[1..])
       case Failed => Failed
       case Read(items, rest) => Read([item.value] + items, rest))
    else Failed
  }

  function ReadField(t: Str): (r: Parsed<Field>)
    ensures r.Read? ==> |r.rest| < |t|
    decreases |t|, 2
  {
    if t == [] || t[0] != QUOTE then Failed
    else
      var key := ReadString(t[1..]);
      if key.Failed? || key.rest == [] || key.rest[0] != COLON then Failed
      else
        (match ReadValue(key.rest[1..])
         case Failed => Failed
         case Read(v, rest) => Read(Field(key.value, v), rest))
  }

  /** One or more fields and the closing brace. */
  function ReadFields(t: Str): (r: Parsed<seq<Field>>)
    ensures r.Read? ==> |r.rest| < |t|
    decreases |t|, 3
  {
    var field := ReadField(t);
    if field.Failed? || field.rest == [] then Failed
    else if field.rest[0] == CLOSE_BRACE then Read([field.value], field.rest[1..])
    else if field.rest[0] == COMMA then
      (match ReadFields(field.rest[1..])
       case Failed => Failed
       case Read(fields, rest) => Read([field.value] + fields, rest))
    else Failed
  }

  // ---------------------------------------------------------------- round trip

  /** What may follow a printed value: anything after a value that closes itself, but not a unit
      that would lengthen a number. */
  predicate Delimits(v: Json, rest: Str)
  {
    v.Num? && rest != [] ==> !IsNumberUnit(rest[0])
  }

  lemma {:induction false} NumberRunOf(t: Str, rest: Str)
    requires AllNumberUnits(t)
    ensures NumberRun(t + rest) == |t| + NumberRun(rest)
  {
    if t == [] {
      assert t + rest == rest;
    } else {
      assert (t + rest)[1..] == t[1..] + rest;
      NumberRunOf(t[1..], rest);
    }
  }

  lemma ReadNumberRun(t: Str)
    requires t != [] && (IsDigit(t[0]) || t[0] == MINUS)
    ensures var n := NumberRun(t);
            ReadValue(t) == (match ReadNumberToken(t[..n])
                             case None => Failed
                             case Some(number) => Read(Json.Num(number), t[n..]))
  {
    assert t[0] != QUOTE && t[0] != OPEN_BRACKET && t[0] != OPEN_BRACE;
  }

  /** A number reads back exactly when what follows cannot lengthen it. */
  lemma ReadNumberOf(n: Number, rest: Str)
    ensures ReadValue(NumberText(n) + rest) == Read(Json.Num(n), rest) <==> Delimits(Json.Num(n), rest)
  {
    var t := NumberText(n);
    NumberTextShape(n);
    NumberRunOf(t, rest);
    ReadNumberRun(t + rest);
    if Delimits(Json.Num(n), rest) {
      ReadNumberTokenOf(n);
      assert (t + rest)[..|t|] == t && (t + rest)[|t|..] == rest;
    } else {
      assert NumberRun(rest) > 0;
      assert |(t + rest)[|t| + NumberRun(rest)..]| < |rest|;
    }
  }

  lemma ReadQuoted(s: Str, rest: Str)
    ensures ReadValue(Quote(s) + rest) == Read(Json.Text(s), rest)
    ensures ReadString((Quote(s) + rest)[1..]) == Read(s, rest)
  {
    assert (Quote(s) + rest)[1..] == Escape(s) + [QUOTE] + rest;
    ReadEscaped(s, rest);
  }

  /** Printed text starts with a unit that is neither a closing bracket nor a closing brace. */
  lemma StringifyHead(v: Json)
    ensures Stringify(v) != [] && Stringify(v)[0] !in {CLOSE_BRACKET, CLOSE_BRACE}
  {
    if v.Num? {
      NumberTextShape(v.n);
    }
  }

  lemma ReadArrStep(t: Str, items: seq<Json>, rest: Str)
    requires t != [] && t[0] != CLOSE_BRACKET && ReadItems(t) == Read(items, rest)
    ensures ReadValue([OPEN_BRACKET] + t) == Read(Arr(items), rest)
  {
    assert ([OPEN_BRACKET] + t)[1..] == t;
  }

  lemma ReadItemsLast(t: Str, v: Json, rest: Str)
    requires ReadValue(t) == Read(v, [CLOSE_BRACKET] + rest)
    ensures ReadItems(t) == Read([v], rest)
  {
    assert ([CLOSE_BRACKET] + rest)[1..] == rest;
  }

  lemma ReadItemsMore(t: Str, v: Json, tail: Str, items: seq<Json>, rest: Str)
    requires ReadValue(t) == Read(v, [COMMA] + tail) && ReadItems(tail) == Read(items, rest)
    ensures ReadItems(t) == Read([v] + items, rest)
  {
    assert ([COMMA] + tail)[1..] == tail;
  }

  lemma ReadObjStep(t: Str, fields: seq<Field>, rest: Str)
    requires t != [] && t[0] != CLOSE_BRACE && ReadFields(t) == Read(fields, rest)
    ensures ReadValue([OPEN_BRACE] + t) == Read(Obj(fields), rest)
  {
    assert ([OPEN_BRACE] + t)[1..] == t;
  }

  lemma ReadFieldsLast(t: Str, f: Field, rest: Str)
    requires ReadField(t) == Read(f, [CLOSE_BRACE] + rest)
    ensures ReadFields(t) == Read([f], rest)
  {
    assert ([CLOSE_BRACE] + rest)[1..] == rest;
  }

  lemma ReadFieldsMore(t: Str, f: Field, tail: Str, fields: seq<Field>, rest: Str)
    requires ReadField(t) == Read(f, [COMMA] + tail) && ReadFields(tail) == Read(fields, rest)
    ensures ReadFields(t) == Read([f] + fields, rest)
  {
    assert ([COMMA] + tail)[1..] == tail;
  }

  lemma ReadEmpty(rest: Str)
    ensures ReadValue([OPEN_BRACKET] + ([CLOSE_BRACKET] + rest)) == Read(Arr([]), rest)
    ensures ReadValue([OPEN_BRACE] + ([CLOSE_BRACE] + rest)) == Read(Obj([]), rest)
  {
    assert ([OPEN_BRACKET] + ([CLOSE_BRACKET] + rest))[2..] == rest;
    assert ([OPEN_BRACE] + ([CLOSE_BRACE] + rest))[2..] == rest;
  }

  lemma ReadWord(rest: Str)
    ensures ReadValue(NULL_TEXT + rest) == Read(Json.Null, rest)
    ensures ReadValue(TRUE_TEXT + rest) == Read(Json.Bool(true), rest)
    ensures ReadValue(FALSE_TEXT + rest) == Read(Json.Bool(false), rest)
  {
    assert (NULL_TEXT + rest)[4..] == rest && (TRUE_TEXT + rest)[4..] == rest && (FALSE_TEXT + rest)[5..] == rest;
    assert NULL_TEXT <= NULL_TEXT + rest && TRUE_TEXT <= TRUE_TEXT + rest && FALSE_TEXT <= FALSE_TEXT + rest;
  }

  lemma ReadFieldStep(key: Str, t: Str, v: Json, rest: Str)
    requires ReadValue(t) == Read(v, rest)
    ensures ReadField(Quote(key) + ([COLON] + t)) == Read(Field(key, v), rest)
  {
    ReadQuoted(key, [COLON] + t);
    assert ([COLON] + t)[1..] == t;
  }

  /** The printer is unambiguous: the value comes back from its text followed by any delimited rest. */
  lemma {:induction false} StringifyRoundTrip(v: Json, rest: Str)
    requires Delimits(v, rest)
    ensures ReadValue(Stringify(v) + rest) == Read(v, rest)
    decreases v, 1
  {
    match v
    case Null => ReadWord(rest);
    case Bool(b) => ReadWord(rest);
    case Num(n) => ReadNumberOf(n, rest);
    case Text(s) => ReadQuoted(s, rest);
    case Arr(items) => ArrRoundTrip(items, rest);
    case Obj(fields) => ObjRoundTrip(fields, rest);
  }

  lemma {:induction false} ArrRoundTrip(items: seq<Json>, rest: Str)
    ensures ReadValue(Stringify(Arr(items)) + rest) == Read(Arr(items), rest)
    decreases items, 1
  {
    var body := StringifyItems(items);
    assert Stringify(Arr(items)) + rest == [OPEN_BRACKET] + (body + ([CLOSE_BRACKET] + rest));
    if items == [] {
      assert body + ([CLOSE_BRACKET] + rest) == [CLOSE_BRACKET] + rest;
      ReadEmpty(rest);
    } else {
      ItemsRoundTrip(items, rest);
      ItemsHead(items);
      ReadArrStep(body + ([CLOSE_BRACKET] + rest), items, rest);
    }
  }

  lemma {:induction false} ObjRoundTrip(fields: seq<Field>, rest: Str)
    ensures ReadValue(Stringify(Obj(fields)) + rest) == Read(Obj(fields), rest)
    decreases fields, 1
  {
    var body := StringifyFields(fields);
    assert Stringify(Obj(fields)) + rest == [OPEN_BRACE] + (body + ([CLOSE_BRACE] + rest));
    if fields == [] {
      assert body + ([CLOSE_BRACE] + rest) == [CLOSE_BRACE] + rest;
      ReadEmpty(rest);
    } else {
      FieldsRoundTrip(fields, rest);
      ReadObjStep(body + ([CLOSE_BRACE] + rest), fields, rest);
    }
  }

  lemma ItemsHead(items: seq<Json>)
    requires items != []
    ensures StringifyItems(items) != [] && StringifyItems(items)[0] != CLOSE_BRACKET
  {
    StringifyHead(items[0]);
  }

  lemma FieldsHead(fields: seq<Field>)
    requires fields != []
    ensures StringifyFields(fields) != [] && StringifyFields(fields)[0] == QUOTE
  {
    assert StringifyField(fields[0])[0] == QUOTE;
  }

  lemma ReadItemsOne(item: Json, rest: Str)
    requires ReadValue(Stringify(item) + ([CLOSE_BRACKET] + rest)) == Read(item, [CLOSE_BRACKET] + rest)
    ensures ReadItems(StringifyItems([item]) + ([CLOSE_BRACKET] + rest)) == Read([item], rest)
  {
    ReadItemsLast(StringifyItems([item]) + ([CLOSE_BRACKET] + rest), item, rest);
  }

  lemma ItemsText(items: seq<Json>, close: Str)
    requires |items| > 1
    ensures StringifyItems(items) + close == Stringify(items[0]) + ([COMMA] + (StringifyItems(items[1..]) + close))
  {
  }

  lemma {:induction false} ItemsRoundTrip(items: seq<Json>, rest: Str)
    requires items != []
    ensures ReadItems(StringifyItems(items) + ([CLOSE_BRACKET] + rest)) == Read(items, rest)
    decreases items, 0
  {
    var close := [CLOSE_BRACKET] + rest;
    var t := StringifyItems(items) + close;
    if |items| == 1 {
      StringifyRoundTrip(items[0], close);
      ReadItemsOne(items[0], rest);
      assert items == [items[0]];
    } else {
      var tail := StringifyItems(items[1..]) + close;
      ItemsText(items, close);
      StringifyRoundTrip(items[0], [COMMA] + tail);
      ItemsRoundTrip(items[1..], rest);
      ReadItemsMore(t, items[0], tail, items[1..], rest);
      assert items == [items[0]] + items[1..];
    }
  }

  lemma {:induction false} FieldRoundTrip(f: Field, rest: Str)
    requires Delimits(f.value, rest)
    ensures ReadField(StringifyField(f) + rest) == Read(f, rest)
    decreases f, 2
  {
    var value := Stringify(f.value) + rest;
    assert StringifyField(f) + rest == Quote(f.key) + ([COLON] + value);
    StringifyRoundTrip(f.value, rest);
    ReadFieldStep(f.key, value, f.value, rest);
  }

  lemma {:induction false} FieldsRoundTrip(fields: seq<Field>, rest: Str)
    requires fields != []
    ensures var t := StringifyFields(fields) + ([CLOSE_BRACE] + rest);
            t[0] != CLOSE_BRACE && ReadFields(t) == Read(fields, rest)
    decreases fields, 0
  {
    var close := [CLOSE_BRACE] + rest;
    var t := StringifyFields(fields) + close;
    FieldsHead(fields);
    if |fields| == 1 {
      FieldRoundTrip(fields[0], close);
      ReadFieldsLast(t, fields[0], rest);
      assert fields == [fields[0]];
    } else {
      var tail := StringifyFields(fields[1..]) + close;
      assert t == StringifyField(fields[0]) + ([COMMA] + tail);
      FieldRoundTrip(fields[0], [COMMA] + tail);
      FieldsRoundTrip(fields[1..], rest);
      ReadFieldsMore(t, fields[0], tail, fields[1..], rest);
      assert fields == [fields[0]] + fields[1..];
    }
  }
}
