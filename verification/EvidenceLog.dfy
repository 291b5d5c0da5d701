/** The evidence tables: fingerprints, persisting, reading back and importing. */
module EvidenceLog {
  import opened Utf16
  import opened CanonicalJson
  import opened JsonParser
  import opened CanonicalForm
  import Ordering

  // ---------------------------------------------------------------- inputs and records

  datatype ValidatorInput = ValidatorInput(validatorId: Str, verdict: Str, weight: Option<Number>,
                                           reasonCodes: Option<JsonValue>)

  datatype EvidenceInput = EvidenceInput(
    subjectId: Str, eventType: Str, taskId: Option<Str>, context: Option<JsonValue>, outcome: Option<JsonValue>,
    validators: seq<ValidatorInput>, disputes: Option<JsonValue>, provenance: Option<JsonValue>)

  datatype Validator = Validator(validatorId: Str, verdict: Str, weight: Number, reasonCodes: JsonValue)

  /** An evidence as the platform reads it back. */
  datatype Evidence = Evidence(
    evidenceId: Str, subjectId: Str, eventType: Str, taskId: Option<Str>, context: JsonValue, outcome: JsonValue,
    validators: seq<Validator>, disputes: JsonValue, provenance: JsonValue, createdAt: Str)

  const EMPTY_OBJECT: JsonValue := Obj([])
  const EMPTY_ARRAY: JsonValue := Arr([])

  /** v ?? fallback */
  function Coalesce(v: Option<JsonValue>, fallback: JsonValue): (r: JsonValue)
    ensures v == None || v == Some(Null) ==> r == fallback
    ensures v.Some? && v.value != Null ==> r == v.value
  {
    match v
    case Some(x) => if x == Null then fallback else x
    case None => fallback
  }

  function WeightOf(v: ValidatorInput): (r: Number)
    ensures v.weight == Some(r) || (v.weight.None? && r == Zero)
  {
    match v.weight
    case Some(w) => w
    case None => Zero
  }

  // ---------------------------------------------------------------- the fingerprint

  const SUBJECT_ID: Str := [0x73, 0x75, 0x62, 0x6A, 0x65, 0x63, 0x74, 0x5F, 0x69, 0x64]
  const EVENT_TYPE: Str := [0x65, 0x76, 0x65, 0x6E, 0x74, 0x5F, 0x74, 0x79, 0x70, 0x65]
  const TASK_ID: Str := [0x74, 0x61, 0x73, 0x6B, 0x5F, 0x69, 0x64]
  const CONTEXT: Str := [0x63, 0x6F, 0x6E, 0x74, 0x65, 0x78, 0x74]
  const OUTCOME: Str := [0x6F, 0x75, 0x74, 0x63, 0x6F, 0x6D, 0x65]
  const VALIDATORS: Str := [0x76, 0x61, 0x6C, 0x69, 0x64, 0x61, 0x74, 0x6F, 0x72, 0x73]
  const DISPUTES: Str := [0x64, 0x69, 0x73, 0x70, 0x75, 0x74, 0x65, 0x73]
  const PROVENANCE: Str := [0x70, 0x72, 0x6F, 0x76, 0x65, 0x6E, 0x61, 0x6E, 0x63, 0x65]
  const VALIDATOR_ID: Str := [0x76, 0x61, 0x6C, 0x69, 0x64, 0x61, 0x74, 0x6F, 0x72, 0x5F, 0x69, 0x64]
  const VERDICT: Str := [0x76, 0x65, 0x72, 0x64, 0x69, 0x63, 0x74]
  const WEIGHT: Str := [0x77, 0x65, 0x69, 0x67, 0x68, 0x74]
  const REASON_CODES: Str := [0x72, 0x65, 0x61, 0x73, 0x6F, 0x6E, 0x5F, 0x63, 0x6F, 0x64, 0x65, 0x73]
  const SOURCE_SYSTEM: Str := [0x73, 0x6F, 0x75, 0x72, 0x63, 0x65, 0x5F, 0x73, 0x79, 0x73, 0x74, 0x65, 0x6D]
  const TRACE_ID: Str := [0x74, 0x72, 0x61, 0x63, 0x65, 0x5F, 0x69, 0x64]
  const SPAN_ID: Str := [0x73, 0x70, 0x61, 0x6E, 0x5F, 0x69, 0x64]

  /** A property of a value that may not be an object; null when it is missing. */
  function Property(v: JsonValue, key: Str): JsonValue
  {
    if v.Obj? && Has(v.fields, key) then
      GetProper(v.fields, key);
      Get(v.fields, key)
    else Null
  }

  lemma GetProper(fields: seq<Field>, key: Str)
    requires Proper(Obj(fields)) && Has(fields, key)
    ensures Proper(Get(fields, key))
  {
    var i :| 0 <= i < |fields| && fields[i] == Field(key, Get(fields, key));
  }

  function TextOrNull(s: Option<Str>): JsonValue
  {
    match s
    case Some(t) => Json.Text(t)
    case None => Null
  }

  lemma ProperObject(fields: seq<Field>)
    requires Distinct(Keys(fields)) && forall i | 0 <= i < |fields| :: Proper(fields[i].value)
    ensures Proper(Obj(fields))
  {
  }

  function ValidatorPayload(v: ValidatorInput): JsonValue
  {
    var fields := [Field(VALIDATOR_ID, Json.Text(v.validatorId)), Field(VERDICT, Json.Text(v.verdict)),
                   Field(WEIGHT, Json.Num(WeightOf(v))), Field(REASON_CODES, Coalesce(v.reasonCodes, EMPTY_ARRAY))];
    ValidatorKeys();
    assert Keys(fields) == VALIDATOR_KEYS;
    ProperObject(fields);
    Obj(fields)
  }

  function ValidatorPayloads(vs: seq<ValidatorInput>): (r: seq<JsonValue>)
    ensures |r| == |vs|
    ensures forall i | 0 <= i < |r| :: r[i] == ValidatorPayload(vs[i])
  {
    if vs == [] then [] else [ValidatorPayload(vs[0])] + ValidatorPayloads(vs[1..])
  }

  function ProvenancePayload(p: JsonValue): JsonValue
  {
    var source: JsonValue, trace: JsonValue, span: JsonValue :=
      Property(p, SOURCE_SYSTEM), Property(p, TRACE_ID), Property(p, SPAN_ID);
    var fields := [Field(SOURCE_SYSTEM, source), Field(TRACE_ID, trace), Field(SPAN_ID, span)];
    ProvenanceKeys();
    assert Keys(fields) == PROVENANCE_KEYS;
    ProperObject(fields);
    Obj(fields)
  }

  /** The content that a fingerprint covers. */
  function Payload(input: EvidenceInput): JsonValue
  {
    var fields := [
      Field(SUBJECT_ID, Json.Text(input.subjectId)), Field(EVENT_TYPE, Json.Text(input.eventType)),
      Field(TASK_ID, TextOrNull(input.taskId)), Field(CONTEXT, Coalesce(input.context, EMPTY_OBJECT)),
      Field(OUTCOME, Coalesce(input.outcome, EMPTY_OBJECT)),
      Field(VALIDATORS, Arr(ValidatorPayloads(input.validators))),
      Field(DISPUTES, Coalesce(input.disputes, EMPTY_ARRAY)),
      Field(PROVENANCE, ProvenancePayload(Coalesce(input.provenance, EMPTY_OBJECT)))];
    PayloadKeys();
    assert Keys(fields) == PAYLOAD_KEYS;
    ProperObject(fields);
    Obj(fields)
  }

  const VALIDATOR_KEYS: seq<Str> := [VALIDATOR_ID, VERDICT, WEIGHT, REASON_CODES]

  lemma ValidatorKeys()
    ensures Distinct(VALIDATOR_KEYS)
  {
    assert |VALIDATOR_ID| == 12 && |VERDICT| == 7 && |WEIGHT| == 6 && |REASON_CODES| == 12;
    assert VALIDATOR_ID[0] == 0x76 && REASON_CODES[0] == 0x72;
  }

  const PROVENANCE_KEYS: seq<Str> := [SOURCE_SYSTEM, TRACE_ID, SPAN_ID]

  lemma ProvenanceKeys()
    ensures Distinct(PROVENANCE_KEYS)
  {
    assert |SOURCE_SYSTEM| == 13 && |TRACE_ID| == 8 && |SPAN_ID| == 7;
  }

  const PAYLOAD_KEYS: seq<Str> := [SUBJECT_ID, EVENT_TYPE, TASK_ID, CONTEXT, OUTCOME, VALIDATORS, DISPUTES, PROVENANCE]

  lemma PayloadKeys()
    ensures Distinct(PAYLOAD_KEYS)
  {
    assert SUBJECT_ID[0] == 0x73 && EVENT_TYPE[0] == 0x65 && TASK_ID[0] == 0x74 && CONTEXT[0] == 0x63;
    assert OUTCOME[0] == 0x6F && VALIDATORS[0] == 0x76 && DISPUTES[0] == 0x64 && PROVENANCE[0] == 0x70;
  }

  /** computeEvidenceFingerprint */
  function Fingerprint(input: EvidenceInput): Digest
  {
    HashPayload(Payload(input))
  }

  // What content is.

  ghost predicate SameValidator(v: ValidatorInput, w: ValidatorInput)
  {
    && v.validatorId == w.validatorId && v.verdict == w.verdict && WeightOf(v) == WeightOf(w)
    && Same(Coalesce(v.reasonCodes, EMPTY_ARRAY), Coalesce(w.reasonCodes, EMPTY_ARRAY))
  }

  ghost predicate SameValidators(vs: seq<ValidatorInput>, ws: seq<ValidatorInput>)
  {
    |vs| == |ws| && forall i | 0 <= i < |vs| :: SameValidator(vs[i], ws[i])
  }

  ghost predicate SameProvenance(p: JsonValue, q: JsonValue)
  {
    && Same(Property(p, SOURCE_SYSTEM), Property(q, SOURCE_SYSTEM))
    && Same(Property(p, TRACE_ID), Property(q, TRACE_ID)) && Same(Property(p, SPAN_ID), Property(q, SPAN_ID))
  }

  /** The same subject, event type and task; context, outcome, disputes and reason codes equal up to key order, with
      defaults filled in; the same validators in the same order; and the same source system, trace and span. */
  ghost predicate SameContent(a: EvidenceInput, b: EvidenceInput)
  {
    && a.subjectId == b.subjectId && a.eventType == b.eventType && a.taskId == b.taskId
    && Same(Coalesce(a.context, EMPTY_OBJECT), Coalesce(b.context, EMPTY_OBJECT))
    && Same(Coalesce(a.outcome, EMPTY_OBJECT), Coalesce(b.outcome, EMPTY_OBJECT))
    && SameValidators(a.validators, b.validators)
    && Same(Coalesce(a.disputes, EMPTY_ARRAY), Coalesce(b.disputes, EMPTY_ARRAY))
    && SameProvenance(Coalesce(a.provenance, EMPTY_OBJECT), Coalesce(b.provenance, EMPTY_OBJECT))
  }

  lemma ValidatorParts(v: ValidatorInput, p: seq<Field>)
    requires Obj(p) == ValidatorPayload(v)
    ensures |p| == 4 && Keys(p) == VALIDATOR_KEYS && Distinct(Keys(p))
    ensures p[0].value == Json.Text(v.validatorId) && p[1].value == Json.Text(v.verdict)
    ensures p[2].value == Json.Num(WeightOf(v)) && p[3].value == Coalesce(v.reasonCodes, EMPTY_ARRAY)
  {
    ValidatorKeys();
  }

  lemma ProvenanceParts(v: JsonValue, p: seq<Field>)
    requires Obj(p) == ProvenancePayload(v)
    ensures |p| == 3 && Keys(p) == PROVENANCE_KEYS && Distinct(Keys(p))
    ensures p[0].value == Property(v, SOURCE_SYSTEM) && p[1].value == Property(v, TRACE_ID)
    ensures p[2].value == Property(v, SPAN_ID)
  {
    ProvenanceKeys();
  }

  lemma TextsEqual(a: Str, b: Str)
    ensures Equal()(Json.Text(a), Json.Text(b)) <==> a == b
  {
  }

  lemma NumbersEqual(a: Number, b: Number)
    ensures Equal()(Json.Num(a), Json.Num(b)) <==> a == b
  {
  }

  lemma ValidatorsSame(v: ValidatorInput, w: ValidatorInput)
    ensures Equal()(ValidatorPayload(v), ValidatorPayload(w)) <==> SameValidator(v, w)
  {
    var p, q := ValidatorPayload(v).fields, ValidatorPayload(w).fields;
    ValidatorParts(v, p);
    ValidatorParts(w, q);
    ObjectsSame(p, q);
    TextsEqual(v.validatorId, w.validatorId);
    TextsEqual(v.verdict, w.verdict);
    NumbersEqual(WeightOf(v), WeightOf(w));
    FourAligned(p, q, Equal());
  }

  lemma FourAligned(p: seq<Field>, q: seq<Field>, same: (Json, Json) -> bool)
    requires |p| == |q| == 4
    ensures (forall i | 0 <= i < |p| :: same(p[i].value, q[i].value))
            <==> && same(p[0].value, q[0].value) && same(p[1].value, q[1].value) && same(p[2].value, q[2].value)
                 && same(p[3].value, q[3].value)
  {
  }

  lemma ProvenancesSame(v: JsonValue, w: JsonValue)
    ensures Equal()(ProvenancePayload(v), ProvenancePayload(w)) <==> SameProvenance(v, w)
  {
    var p, q := ProvenancePayload(v).fields, ProvenancePayload(w).fields;
    ProvenanceParts(v, p);
    ProvenanceParts(w, q);
    ObjectsSame(p, q);
    ThreeAligned(p, q, Equal());
  }

  lemma ThreeAligned(p: seq<Field>, q: seq<Field>, same: (Json, Json) -> bool)
    requires |p| == |q| == 3
    ensures (forall i | 0 <= i < |p| :: same(p[i].value, q[i].value))
            <==> same(p[0].value, q[0].value) && same(p[1].value, q[1].value) && same(p[2].value, q[2].value)
  {
  }

  /** Payloads are alike exactly where their validators are. */
  ghost predicate AlikeWhere(vs: seq<ValidatorInput>, ws: seq<ValidatorInput>, ps: seq<Json>, qs: seq<Json>,
                             same: (Json, Json) -> bool)
  {
    && |ps| == |vs| && |qs| == |ws|
    && forall i | 0 <= i < |vs| && i < |ws| :: same(ps[i], qs[i]) <==> SameValidator(vs[i], ws[i])
  }

  lemma PayloadsAlike(vs: seq<ValidatorInput>, ws: seq<ValidatorInput>)
    ensures AlikeWhere(vs, ws, ValidatorPayloads(vs), ValidatorPayloads(ws), Equal())
  {
    forall i | 0 <= i < |vs| && i < |ws|
      ensures Equal()(ValidatorPayloads(vs)[i], ValidatorPayloads(ws)[i]) <==> SameValidator(vs[i], ws[i])
    {
      ValidatorsSame(vs[i], ws[i]);
    }
  }

  lemma AlikeSame(vs: seq<ValidatorInput>, ws: seq<ValidatorInput>, ps: seq<Json>, qs: seq<Json>,
                  same: (Json, Json) -> bool)
    requires AlikeWhere(vs, ws, ps, qs, same)
    ensures (|ps| == |qs| && forall i | 0 <= i < |ps| :: same(ps[i], qs[i])) <==> SameValidators(vs, ws)
  {
  }

  lemma ArraysEqual(ps: seq<Json>, qs: seq<Json>, same: (Json, Json) -> bool)
    requires same == Equal()
    ensures same(Arr(ps), Arr(qs)) <==> |ps| == |qs| && forall i | 0 <= i < |ps| :: same(ps[i], qs[i])
  {
    ArraysSame(ps, qs);
  }

  lemma ListsSame(vs: seq<ValidatorInput>, ws: seq<ValidatorInput>, ps: seq<Json>, qs: seq<Json>,
                  same: (Json, Json) -> bool)
    requires same == Equal() && AlikeWhere(vs, ws, ps, qs, same)
    ensures same(Arr(ps), Arr(qs)) <==> SameValidators(vs, ws)
  {
    ArraysEqual(ps, qs, same);
    AlikeSame(vs, ws, ps, qs, same);
  }

  lemma ValidatorListsSame(vs: seq<ValidatorInput>, ws: seq<ValidatorInput>)
    ensures Equal()(Arr(ValidatorPayloads(vs)), Arr(ValidatorPayloads(ws))) <==> SameValidators(vs, ws)
  {
    PayloadsAlike(vs, ws);
    ListsSame(vs, ws, ValidatorPayloads(vs), ValidatorPayloads(ws), Equal());
  }

  lemma TextsOrNullSame(a: Option<Str>, b: Option<Str>)
    ensures Equal()(TextOrNull(a), TextOrNull(b)) <==> a == b
  {
  }

  lemma PayloadParts(input: EvidenceInput, p: seq<Field>)
    requires Obj(p) == Payload(input)
    ensures |p| == 8 && Keys(p) == PAYLOAD_KEYS && Distinct(Keys(p))
    ensures p[0].value == Json.Text(input.subjectId) && p[1].value == Json.Text(input.eventType)
    ensures p[2].value == TextOrNull(input.taskId) && p[3].value == Coalesce(input.context, EMPTY_OBJECT)
    ensures p[4].value == Coalesce(input.outcome, EMPTY_OBJECT)
    ensures p[5].value == Arr(ValidatorPayloads(input.validators))
    ensures p[6].value == Coalesce(input.disputes, EMPTY_ARRAY)
    ensures p[7].value == ProvenancePayload(Coalesce(input.provenance, EMPTY_OBJECT))
  {
    PayloadKeys();
  }

  lemma EightAligned(p: seq<Field>, q: seq<Field>, same: (Json, Json) -> bool)
    requires |p| == |q| == 8
    ensures (forall i | 0 <= i < |p| :: same(p[i].value, q[i].value))
            <==> && same(p[0].value, q[0].value) && same(p[1].value, q[1].value) && same(p[2].value, q[2].value)
                 && same(p[3].value, q[3].value) && same(p[4].value, q[4].value) && same(p[5].value, q[5].value)
                 && same(p[6].value, q[6].value) && same(p[7].value, q[7].value)
  {
  }

  lemma PayloadsSame(a: EvidenceInput, b: EvidenceInput)
    ensures Same(Payload(a), Payload(b)) <==> SameContent(a, b)
  {
    var p, q := Payload(a).fields, Payload(b).fields;
    PayloadParts(a, p);
    PayloadParts(b, q);
    ObjectsSame(p, q);
    EightAligned(p, q, Equal());
    PartsSame(a, b);
  }

  lemma PartsSame(a: EvidenceInput, b: EvidenceInput)
    ensures Equal()(Json.Text(a.subjectId), Json.Text(b.subjectId)) <==> a.subjectId == b.subjectId
    ensures Equal()(Json.Text(a.eventType), Json.Text(b.eventType)) <==> a.eventType == b.eventType
    ensures Equal()(TextOrNull(a.taskId), TextOrNull(b.taskId)) <==> a.taskId == b.taskId
    ensures Equal()(Arr(ValidatorPayloads(a.validators)), Arr(ValidatorPayloads(b.validators)))
            <==> SameValidators(a.validators, b.validators)
    ensures var p, q := Coalesce(a.provenance, EMPTY_OBJECT), Coalesce(b.provenance, EMPTY_OBJECT);
            Equal()(ProvenancePayload(p), ProvenancePayload(q)) <==> SameProvenance(p, q)
  {
    TextsEqual(a.subjectId, b.subjectId);
    TextsEqual(a.eventType, b.eventType);
    TextsOrNullSame(a.taskId, b.taskId);
    ValidatorListsSame(a.validators, b.validators);
    ProvenancesSame(Coalesce(a.provenance, EMPTY_OBJECT), Coalesce(b.provenance, EMPTY_OBJECT));
  }

  /** Two evidences have the same fingerprint exactly when their content is equal up to key order. */
  lemma FingerprintIdentifiesContent(a: EvidenceInput, b: EvidenceInput)
    ensures Fingerprint(a) == Fingerprint(b) <==> Same(Payload(a), Payload(b))
    ensures Fingerprint(a) == Fingerprint(b) <==> SameContent(a, b)
    ensures Fingerprint(a) == Fingerprint(b) ==> a.subjectId == b.subjectId
  {
    HashPayloadIdentifiesSame(Payload(a), Payload(b));
    PayloadsSame(a, b);
    if Same(Payload(a), Payload(b)) {
      var fields, fields' := Payload(a).fields, Payload(b).fields;
      assert Same(fields[0].value, Get(fields', fields[0].key));
      assert Get(fields', SUBJECT_ID) == fields'[0].value;
    }
  }

  // ---------------------------------------------------------------- tables

  datatype EvidenceRow = EvidenceRow(
    evidenceId: Str, hash: Digest, subjectId: Str, eventType: Str, taskId: Option<Str>,
    context: Str, outcome: Str, disputes: Str, provenance: Str, createdAt: Str)

  datatype ValidatorRow = ValidatorRow(evidenceId: Str, validatorId: Str, verdict: Str, weight: Number,
                                       reasonCodes: Str)

  datatype Tables = Tables(rows: seq<EvidenceRow>, validators: seq<ValidatorRow>)

  /** parseJsonColumn. Columns the platform writes always parse. */
  function Column(text: Str, fallback: JsonValue): JsonValue
  {
    match ParseJson(text)
    case Some(v) => if Proper(v) then v else fallback
    case None => fallback
  }

  lemma ColumnOf(v: JsonValue, fallback: JsonValue)
    ensures Column(Stringify(v), fallback) == v
  {
    ColumnRoundTrip(v);
  }

  function ValidatorsOf(validators: seq<ValidatorRow>, evidenceId: Str): seq<Validator>
  {
    if validators == [] then []
    else
      var last := validators[|validators| - 1];
      ValidatorsOf(validators[..|validators| - 1], evidenceId) +
      if last.evidenceId == evidenceId
      then [Validator(last.validatorId, last.verdict, last.weight, Column(last.reasonCodes, EMPTY_ARRAY))]
      else []
  }

  /** toEvidence */
  function ToEvidence(t: Tables, row: EvidenceRow): Evidence
  {
    Evidence(row.evidenceId, row.subjectId, row.eventType, row.taskId,
             Column(row.context, EMPTY_OBJECT), Column(row.outcome, EMPTY_OBJECT),
             ValidatorsOf(t.validators, row.evidenceId),
             Column(row.disputes, EMPTY_ARRAY), Column(row.provenance, EMPTY_OBJECT), row.createdAt)
  }

  function ValidatorAsInput(v: Validator): ValidatorInput
  {
    ValidatorInput(v.validatorId, v.verdict, Some(v.weight), Some(v.reasonCodes))
  }

  function ValidatorsAsInput(vs: seq<Validator>): (r: seq<ValidatorInput>)
    ensures |r| == |vs|
    ensures forall i | 0 <= i < |r| :: r[i] == ValidatorAsInput(vs[i])
  {
    if vs == [] then [] else [ValidatorAsInput(vs[0])] + ValidatorsAsInput(vs[1..])
  }

  /** A read-back evidence taken as input again, as a bundle's evidence is. */
  function AsInput(e: Evidence): EvidenceInput
  {
    EvidenceInput(e.subjectId, e.eventType, e.taskId, Some(e.context), Some(e.outcome), ValidatorsAsInput(e.validators),
                  Some(e.disputes), Some(e.provenance))
  }

  // ---------------------------------------------------------------- writing and reading back

  function RowOf(id: Str, hash: Digest, input: EvidenceInput, createdAt: Str): EvidenceRow
  {
    EvidenceRow(id, hash, input.subjectId, input.eventType, input.taskId,
                Stringify(Coalesce(input.context, EMPTY_OBJECT)), Stringify(Coalesce(input.outcome, EMPTY_OBJECT)),
                Stringify(Coalesce(input.disputes, EMPTY_ARRAY)), Stringify(Coalesce(input.provenance, EMPTY_OBJECT)),
                createdAt)
  }

  function ValidatorRowOf(id: Str, v: ValidatorInput): ValidatorRow
  {
    ValidatorRow(id, v.validatorId, v.verdict, WeightOf(v), Stringify(Coalesce(v.reasonCodes, EMPTY_ARRAY)))
  }

  function ValidatorRowsOf(id: Str, vs: seq<ValidatorInput>): (r: seq<ValidatorRow>)
    ensures |r| == |vs|
    ensures forall i | 0 <= i < |r| :: r[i] == ValidatorRowOf(id, vs[i])
  {
    if vs == [] then [] else ValidatorRowsOf(id, vs[..|vs| - 1]) + [ValidatorRowOf(id, vs[|vs| - 1])]
  }

  /** The tables after persistEvidenceRecord. */
  function Persisted(t: Tables, id: Str, hash: Digest, input: EvidenceInput, createdAt: Str): Tables
  {
    Tables(t.rows + [RowOf(id, hash, input, createdAt)], t.validators + ValidatorRowsOf(id, input.validators))
  }

  predicate HasId(t: Tables, id: Str)
  {
    exists i | 0 <= i < |t.rows| :: t.rows[i].evidenceId == id
  }

  predicate HasHash(t: Tables, hash: Digest)
  {
    exists i | 0 <= i < |t.rows| :: t.rows[i].hash == hash
  }

  /** SELECT evidence_id ... WHERE evidence_hash = ? */
  function IdOfHash(rows: seq<EvidenceRow>, hash: Digest): (r: Option<Str>)
    ensures r.Some? <==> exists i | 0 <= i < |rows| :: rows[i].hash == hash
    ensures r.Some? ==> exists i | 0 <= i < |rows| :: rows[i].hash == hash && rows[i].evidenceId == r.value
  {
    if rows == [] then None
    else if rows[0].hash == hash then Some(rows[0].evidenceId)
    else
      var r := IdOfHash(rows[1..], hash);
      assert forall i | 0 <= i < |rows[1..]| :: rows[1..][i] == rows[i + 1];
      r
  }

  /** What reading a freshly written record gives: the input with its defaults filled in. */
  function Resolved(id: Str, input: EvidenceInput, createdAt: Str): Evidence
  {
    Evidence(id, input.subjectId, input.eventType, input.taskId,
             Coalesce(input.context, EMPTY_OBJECT), Coalesce(input.outcome, EMPTY_OBJECT),
             ResolvedValidators(input.validators),
             Coalesce(input.disputes, EMPTY_ARRAY), Coalesce(input.provenance, EMPTY_OBJECT), createdAt)
  }

  function ResolvedValidators(vs: seq<ValidatorInput>): (r: seq<Validator>)
    ensures |r| == |vs|
    ensures forall i | 0 <= i < |r| ::
              r[i] == Validator(vs[i].validatorId, vs[i].verdict, WeightOf(vs[i]),
                                Coalesce(vs[i].reasonCodes, EMPTY_ARRAY))
  {
    if vs == [] then []
    else
      var last := vs[|vs| - 1];
      ResolvedValidators(vs[..|vs| - 1])
        + [Validator(last.validatorId, last.verdict, WeightOf(last), Coalesce(last.reasonCodes, EMPTY_ARRAY))]
  }

  lemma ValidatorAppended(rows: seq<ValidatorRow>, row: ValidatorRow, other: Str)
    ensures ValidatorsOf(rows + [row], other) == ValidatorsOf(rows, other) +
            if row.evidenceId == other
              then [Validator(row.validatorId, row.verdict, row.weight, Column(row.reasonCodes, EMPTY_ARRAY))] else []
  {
    assert (rows + [row])[..|rows|] == rows;
  }

  lemma {:induction false} ValidatorsAppended(rows: seq<ValidatorRow>, id: Str, vs: seq<ValidatorInput>, other: Str)
    ensures ValidatorsOf(rows + ValidatorRowsOf(id, vs), other)
         == ValidatorsOf(rows, other) + if id == other then ResolvedValidators(vs) else []
  {
    if vs == [] {
      assert rows + ValidatorRowsOf(id, vs) == rows;
    } else {
      var front, last := vs[..|vs| - 1], vs[|vs| - 1];
      var before := rows + ValidatorRowsOf(id, front);
      assert rows + ValidatorRowsOf(id, vs) == before + [ValidatorRowOf(id, last)];
      ValidatorsAppended(rows, id, front, other);
      ValidatorAppended(before, ValidatorRowOf(id, last), other);
      ColumnOf(Coalesce(last.reasonCodes, EMPTY_ARRAY), EMPTY_ARRAY);
    }
  }

  lemma {:induction false} NoValidators(validators: seq<ValidatorRow>, id: Str)
    requires forall i | 0 <= i < |validators| :: validators[i].evidenceId != id
    ensures ValidatorsOf(validators, id) == []
  {
    if validators != [] {
      NoValidators(validators[..|validators| - 1], id);
    }
  }

  lemma ValidatorPayloadAgain(v: ValidatorInput)
    ensures ValidatorPayload(ValidatorAsInput(Validator(v.validatorId, v.verdict, WeightOf(v),
                                                        Coalesce(v.reasonCodes, EMPTY_ARRAY))))
         == ValidatorPayload(v)
  {
  }

  lemma PayloadsResolved(id: Str, input: EvidenceInput, createdAt: Str)
    ensures ValidatorPayloads(AsInput(Resolved(id, input, createdAt)).validators) == ValidatorPayloads(input.validators)
  {
    var again := AsInput(Resolved(id, input, createdAt)).validators;
    forall i | 0 <= i < |input.validators| ensures ValidatorPayload(again[i]) == ValidatorPayload(input.validators[i]) {
      ValidatorPayloadAgain(input.validators[i]);
    }
  }

  /** Filling in defaults does not change the fingerprint. */
  lemma FingerprintResolved(id: Str, input: EvidenceInput, createdAt: Str)
    ensures Fingerprint(AsInput(Resolved(id, input, createdAt))) == Fingerprint(input)
  {
    PayloadsResolved(id, input, createdAt);
    assert Payload(AsInput(Resolved(id, input, createdAt))) == Payload(input);
  }

  // ---------------------------------------------------------------- the index invariant

  ghost predicate RowsUnique(t: Tables)
  {
    forall i, j | 0 <= i < j < |t.rows| ::
      t.rows[i].evidenceId != t.rows[j].evidenceId && t.rows[i].hash != t.rows[j].hash
  }

  /** Every stored hash is the fingerprint recomputed from the row as read back. */
  ghost predicate HashesAgree(t: Tables)
  {
    forall i | 0 <= i < |t.rows| :: t.rows[i].hash == Fingerprint(AsInput(ToEvidence(t, t.rows[i])))
  }

  /** Validator rows belong to evidence rows. */
  ghost predicate OwnersExist(t: Tables)
  {
    forall i | 0 <= i < |t.validators| :: HasId(t, t.validators[i].evidenceId)
  }

  /** A read-back evidence has no null where the program fills in a default. */
  predicate Settled(e: Evidence)
  {
    && e.context != Null && e.outcome != Null && e.disputes != Null && e.provenance != Null
    && forall i | 0 <= i < |e.validators| :: e.validators[i].reasonCodes != Null
  }

  ghost predicate RowsSettled(t: Tables)
  {
    forall i | 0 <= i < |t.rows| :: Settled(ToEvidence(t, t.rows[i]))
  }

  ghost predicate IndexAgrees(t: Tables)
  {
    RowsUnique(t) && HashesAgree(t) && OwnersExist(t) && RowsSettled(t)
  }

  lemma ResolvedIsSettled(id: Str, input: EvidenceInput, createdAt: Str)
    ensures Settled(Resolved(id, input, createdAt))
  {
  }

  /** Taking a settled evidence as input again and reading it back changes nothing. */
  lemma ResolvedAgain(e: Evidence)
    requires Settled(e)
    ensures Resolved(e.evidenceId, AsInput(e), e.createdAt) == e
  {
    assert ResolvedValidators(AsInput(e).validators) == e.validators;
  }

  /** No two rows share canonical content. */
  lemma ContentIsUnique(t: Tables, i: nat, j: nat)
    requires IndexAgrees(t) && i < j < |t.rows|
    ensures !Same(Payload(AsInput(ToEvidence(t, t.rows[i]))), Payload(AsInput(ToEvidence(t, t.rows[j]))))
    ensures !SameContent(AsInput(ToEvidence(t, t.rows[i])), AsInput(ToEvidence(t, t.rows[j])))
  {
    FingerprintIdentifiesContent(AsInput(ToEvidence(t, t.rows[i])), AsInput(ToEvidence(t, t.rows[j])));
  }

  lemma NewReadsBack(t: Tables, id: Str, hash: Digest, input: EvidenceInput, createdAt: Str)
    requires OwnersExist(t) && !HasId(t, id)
    ensures ToEvidence(Persisted(t, id, hash, input, createdAt), RowOf(id, hash, input, createdAt))
            == Resolved(id, input, createdAt)
  {
    forall i | 0 <= i < |t.validators| ensures t.validators[i].evidenceId != id {
      assert HasId(t, t.validators[i].evidenceId);
    }
    NoValidators(t.validators, id);
    ValidatorsAppended(t.validators, id, input.validators, id);
    ColumnOf(Coalesce(input.context, EMPTY_OBJECT), EMPTY_OBJECT);
    ColumnOf(Coalesce(input.outcome, EMPTY_OBJECT), EMPTY_OBJECT);
    ColumnOf(Coalesce(input.disputes, EMPTY_ARRAY), EMPTY_ARRAY);
    ColumnOf(Coalesce(input.provenance, EMPTY_OBJECT), EMPTY_OBJECT);
  }

  lemma OldReadsBack(t: Tables, id: Str, hash: Digest, input: EvidenceInput, createdAt: Str, i: nat)
    requires i < |t.rows| && !HasId(t, id)
    ensures ToEvidence(Persisted(t, id, hash, input, createdAt), t.rows[i]) == ToEvidence(t, t.rows[i])
  {
    ValidatorsAppended(t.validators, id, input.validators, t.rows[i].evidenceId);
  }

  /** A new record reads back as its input with defaults, and old records read back as before. */
  lemma ReadBack(t: Tables, id: Str, hash: Digest, input: EvidenceInput, createdAt: Str)
    requires OwnersExist(t) && !HasId(t, id)
    ensures var t' := Persisted(t, id, hash, input, createdAt);
            && ToEvidence(t', RowOf(id, hash, input, createdAt)) == Resolved(id, input, createdAt)
            && forall i | 0 <= i < |t.rows| :: ToEvidence(t', t.rows[i]) == ToEvidence(t, t.rows[i])
  {
    NewReadsBack(t, id, hash, input, createdAt);
    forall i | 0 <= i < |t.rows|
      ensures ToEvidence(Persisted(t, id, hash, input, createdAt), t.rows[i]) == ToEvidence(t, t.rows[i])
    {
      OldReadsBack(t, id, hash, input, createdAt, i);
    }
  }

  lemma PersistedOwners(t: Tables, id: Str, hash: Digest, input: EvidenceInput, createdAt: Str)
    requires OwnersExist(t)
    ensures OwnersExist(Persisted(t, id, hash, input, createdAt))
  {
    var t' := Persisted(t, id, hash, input, createdAt);
    assert t'.rows[|t.rows|].evidenceId == id;
    forall i | 0 <= i < |t'.validators| ensures HasId(t', t'.validators[i].evidenceId) {
      if i < |t.validators| {
        var j :| 0 <= j < |t.rows| && t.rows[j].evidenceId == t.validators[i].evidenceId;
        assert t'.rows[j].evidenceId == t'.validators[i].evidenceId;
      }
    }
  }

  lemma PersistedHashes(t: Tables, id: Str, input: EvidenceInput, createdAt: Str)
    requires HashesAgree(t) && OwnersExist(t) && !HasId(t, id)
    ensures HashesAgree(Persisted(t, id, Fingerprint(input), input, createdAt))
  {
    var t' := Persisted(t, id, Fingerprint(input), input, createdAt);
    ReadBack(t, id, Fingerprint(input), input, createdAt);
    FingerprintResolved(id, input, createdAt);
    forall i | 0 <= i < |t'.rows| ensures t'.rows[i].hash == Fingerprint(AsInput(ToEvidence(t', t'.rows[i]))) {
      if i < |t.rows| {
        assert t'.rows[i] == t.rows[i];
      }
    }
  }

  lemma PersistedUnique(t: Tables, id: Str, hash: Digest, input: EvidenceInput, createdAt: Str)
    requires RowsUnique(t) && !HasId(t, id) && !HasHash(t, hash)
    ensures RowsUnique(Persisted(t, id, hash, input, createdAt))
  {
  }

  lemma PersistedSettled(t: Tables, id: Str, hash: Digest, input: EvidenceInput, createdAt: Str)
    requires RowsSettled(t) && OwnersExist(t) && !HasId(t, id)
    ensures RowsSettled(Persisted(t, id, hash, input, createdAt))
  {
    var t' := Persisted(t, id, hash, input, createdAt);
    ReadBack(t, id, hash, input, createdAt);
    ResolvedIsSettled(id, input, createdAt);
    forall i | 0 <= i < |t'.rows| ensures Settled(ToEvidence(t', t'.rows[i])) {
      if i < |t.rows| {
        assert t'.rows[i] == t.rows[i];
      }
    }
  }

  /** Persisting a record with a fresh id and fresh content keeps the index in agreement. */
  lemma PersistedAgrees(t: Tables, id: Str, input: EvidenceInput, createdAt: Str)
    requires IndexAgrees(t) && !HasId(t, id) && !HasHash(t, Fingerprint(input))
    ensures IndexAgrees(Persisted(t, id, Fingerprint(input), input, createdAt))
  {
    PersistedUnique(t, id, Fingerprint(input), input, createdAt);
    PersistedSettled(t, id, Fingerprint(input), input, createdAt);
    PersistedOwners(t, id, Fingerprint(input), input, createdAt);
    PersistedHashes(t, id, input, createdAt);
  }

  // ---------------------------------------------------------------- importing

  /** The import loop skips this evidence. */
  predicate Knows(t: Tables, e: Evidence)
  {
    HasId(t, e.evidenceId) || HasHash(t, Fingerprint(AsInput(e)))
  }

  /** One round of the import loop: skipped when the id or the content is already there. */
  function ImportOne(t: Tables, e: Evidence): Tables
  {
    if Knows(t, e) then t
    else Persisted(t, e.evidenceId, Fingerprint(AsInput(e)), AsInput(e), e.createdAt)
  }

  function ImportAll(t: Tables, evidence: seq<Evidence>): Tables
  {
    if evidence == [] then t else ImportOne(ImportAll(t, evidence[..|evidence| - 1]), evidence[|evidence| - 1])
  }

  /** The counter of the import loop: one for every evidence that is not skipped when its turn comes. */
  function ImportCount(t: Tables, evidence: seq<Evidence>): nat
  {
    if evidence == [] then 0
    else
      var front, last := evidence[..|evidence| - 1], evidence[|evidence| - 1];
      ImportCount(t, front) + if Knows(ImportAll(t, front), last) then 0 else 1
  }

  lemma ImportOneGrowth(t: Tables, e: Evidence)
    ensures |ImportOne(t, e).rows| == |t.rows| + if Knows(t, e) then 0 else 1
  {
  }

  /** The counter is the growth of the log. */
  lemma {:induction false} ImportCountIsGrowth(t: Tables, evidence: seq<Evidence>)
    ensures ImportCount(t, evidence) == |ImportAll(t, evidence).rows| - |t.rows|
  {
    if evidence != [] {
      var front, last := evidence[..|evidence| - 1], evidence[|evidence| - 1];
      ImportCountIsGrowth(t, front);
      ImportOneGrowth(ImportAll(t, front), last);
    }
  }

  lemma {:induction false} ImportAgrees(t: Tables, evidence: seq<Evidence>)
    requires IndexAgrees(t)
    ensures IndexAgrees(ImportAll(t, evidence)) && t.rows <= ImportAll(t, evidence).rows
  {
    if evidence != [] {
      var front, last := evidence[..|evidence| - 1], evidence[|evidence| - 1];
      ImportAgrees(t, front);
      var t1 := ImportAll(t, front);
      if !HasId(t1, last.evidenceId) && !HasHash(t1, Fingerprint(AsInput(last))) {
        PersistedAgrees(t1, last.evidenceId, AsInput(last), last.createdAt);
      }
    }
  }

  // ---------------------------------------------------------------- listing

  function NewestFirst(): (EvidenceRow, EvidenceRow) -> bool
  {
    (a: EvidenceRow, b: EvidenceRow) =>
      Less(b.createdAt, a.createdAt) || (a.createdAt == b.createdAt && Less(b.evidenceId, a.evidenceId))
  }

  function RowsFor(rows: seq<EvidenceRow>, subject: Str): (r: seq<EvidenceRow>)
    ensures forall x :: x in r <==> x in rows && x.subjectId == subject
  {
    if rows == [] then []
    else
      var last := rows[|rows| - 1];
      assert rows == rows[..|rows| - 1] + [last];
      RowsFor(rows[..|rows| - 1], subject) + if last.subjectId == subject then [last] else []
  }

  function ReadAll(t: Tables, rows: seq<EvidenceRow>): (r: seq<Evidence>)
    ensures |r| == |rows|
    ensures forall i | 0 <= i < |r| :: r[i] == ToEvidence(t, rows[i])
  {
    if rows == [] then [] else [ToEvidence(t, rows[0])] + ReadAll(t, rows[1..])
  }

  /** listEvidence: newest first, ids descending within an instant. */
  function ListEvidence(t: Tables, subject: Str): seq<Evidence>
  {
    ReadAll(t, Ordering.Sort(NewestFirst(), RowsFor(t.rows, subject)))
  }
}
