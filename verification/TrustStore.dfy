/** The platform's tables and the operations on them: passports, evidence, resolutions, bundles and
    replays. Operations are not transactional: an error keeps what was written before it. */
module TrustStore {
  import opened Utf16
  import opened CanonicalJson
  import opened JsonParser
  import opened CanonicalForm
  import Ordering
  import Rounding
  import R = Resolution
  import K = Credentials
  import L = EvidenceLog
  import I = Idempotency

  // ---------------------------------------------------------------- rows

  datatype Status = Active | Suspended | Revoked

  datatype SubjectType = Agent | ValidatorSubject | OperatorService | ToolAdapter | Unlisted

  datatype Passport = Passport(
    passportId: Str, subjectId: Str, subjectType: SubjectType, did: Option<Str>, status: Status,
    issuerId: Str, metadata: JsonValue, createdAt: Str)

  datatype SnapshotRow = SnapshotRow(
    subjectId: Str, version: int, vector: R.Vector, counts: R.Counts, lastEventAt: Str, updatedAt: Str)

  datatype ResolutionRow = ResolutionRow(
    resolutionId: Str, subjectId: Str, score: int, band: R.Band, decision: R.Decision, confidence: real,
    traceId: Str, policyVersion: Str, createdAt: Str)

  datatype Trace = Trace(
    traceId: Str, subjectId: Str, resolutionId: Option<Str>, snapshot: Option<SnapshotRow>, context: JsonValue,
    policyVersion: Str, createdAt: Str)

  /** HMAC-SHA256 as an uninterpreted function of key and message. */
  datatype Signature = HmacSha256(key: Str, message: Digest)

  datatype Direction = Export | Import

  datatype ReceiptRow = ReceiptRow(subjectId: Str, direction: Direction, targetNetwork: Str, payloadHash: Digest,
                                   signature: Signature)

  datatype Db = Db(
    passports: seq<Passport>, credentials: K.Tables, evidence: L.Tables, snapshots: map<Str, SnapshotRow>,
    resolutions: map<Str, ResolutionRow>, traces: seq<Trace>, receipts: map<Str, ReceiptRow>)

  datatype Error =
    | InvalidRequest | UnknownSubject | PassportRevoked | PassportSuspended | ConflictingEvidence
    | IdempotencyConflict | LowConfidence | TraceUnavailable | ConstraintFailed

  datatype Result<+T> = Ok(value: T) | Err(error: Error)

  /** The tables beside the idempotency table. */
  type Store = I.Store<Db>

  /** The process: its environment and signing key, the trust configuration, the policy rows, how the parts
      of request bodies are read, the registration request that an import builds, and the engine's
      computeSnapshot, of which only the arguments matter here. */
  datatype Env = Env(
    environment: Str, signingKey: Str, config: R.TrustConfig,
    policies: map<(Str, Str), R.Policy>, defaultPolicy: R.Policy,
    eventTypes: set<Str>, revokeType: Str,
    contextOf: JsonValue -> R.Context,
    passportOf: JsonValue -> PassportInput, evidenceOf: JsonValue -> L.EvidenceInput,
    createdAtOf: JsonValue -> Option<Str>,
    importBody: Bundle -> JsonValue,
    snapshotOf: (Db, Str, Str) -> SnapshotRow,
    collate: (Str, Str) -> int)

  // ---------------------------------------------------------------- passports

  function FindPassport(passports: seq<Passport>, subject: Str): (r: Option<Passport>)
    ensures r.Some? ==> r.value in passports && r.value.subjectId == subject
    ensures r.None? ==> forall p | p in passports :: p.subjectId != subject
  {
    if passports == [] then None
    else if passports[0].subjectId == subject then Some(passports[0])
    else FindPassport(passports[1..], subject)
  }

  /** ensureSubject */
  function EnsureSubject(db: Db, subject: Str): Result<Passport>
  {
    match FindPassport(db.passports, subject)
    case None => Err(UnknownSubject)
    case Some(p) =>
      if p.status == Revoked then Err(PassportRevoked)
      else if p.status == Suspended then Err(PassportSuspended)
      else Ok(p)
  }

  function WithStatus(passports: seq<Passport>, subject: Str, status: Status): (r: seq<Passport>)
    ensures |r| == |passports|
    ensures forall i | 0 <= i < |r| ::
              r[i] == if passports[i].subjectId == subject then passports[i].(status := status) else passports[i]
  {
    if passports == [] then []
    else
      [if passports[0].subjectId == subject then passports[0].(status := status) else passports[0]]
      + WithStatus(passports[1..], subject, status)
  }

  /** setPassportStatus */
  function SetPassportStatus(db: Db, subject: Str, status: Status): (Db, Result<()>)
  {
    if FindPassport(db.passports, subject).None? then (db, Err(UnknownSubject))
    else (db.(passports := WithStatus(db.passports, subject, status)), Ok(()))
  }

  /** What createPassport reads of its request. */
  datatype PassportInput = PassportInput(
    subjectId: Str, subjectType: SubjectType, did: Option<Str>, issuerId: Str, metadata: JsonValue,
    publicKeys: seq<K.PublicKey>, capabilities: seq<K.Capability>)

  // /v1/passports
  const PASSPORTS_ENDPOINT: Str := [0x2F, 0x76, 0x31, 0x2F, 0x70, 0x61, 0x73, 0x73, 0x70, 0x6F, 0x72, 0x74, 0x73]
  // /v1/evidence
  const EVIDENCE_ENDPOINT: Str := [0x2F, 0x76, 0x31, 0x2F, 0x65, 0x76, 0x69, 0x64, 0x65, 0x6E, 0x63, 0x65]
  // import-passport-
  const IMPORT_PASSPORT: Str :=
    [0x69, 0x6D, 0x70, 0x6F, 0x72, 0x74, 0x2D, 0x70, 0x61, 0x73, 0x73, 0x70, 0x6F, 0x72, 0x74, 0x2D]

  // imported_from_environment
  const IMPORTED_FROM: Str := [
    0x69, 0x6D, 0x70, 0x6F, 0x72, 0x74, 0x65, 0x64, 0x5F, 0x66, 0x72, 0x6F, 0x6D, 0x5F,
    0x65, 0x6E, 0x76, 0x69, 0x72, 0x6F, 0x6E, 0x6D, 0x65, 0x6E, 0x74]
  // imported_receipt_id
  const IMPORTED_RECEIPT: Str := [
    0x69, 0x6D, 0x70, 0x6F, 0x72, 0x74, 0x65, 0x64, 0x5F, 0x72, 0x65, 0x63, 0x65, 0x69, 0x70, 0x74, 0x5F, 0x69, 0x64]

  function NewPassport(input: PassportInput, now: Str, passportId: Str): Passport
  {
    Passport(passportId, input.subjectId, input.subjectType, input.did, Active, input.issuerId, input.metadata, now)
  }

  /** The handler of createPassport. The passport is inserted first, then its keys one by one, then its
      capabilities; a repeated key id is an error that keeps what was written before it. */
  function CreatePassport(db: Db, input: PassportInput, now: Str, passportId: Str): I.Outcome<Db, Error>
  {
    if input.subjectId == [] || input.subjectType == Unlisted then I.Threw(db, InvalidRequest)
    else if input.did.Some? && input.did.value != [] && (exists p | p in db.passports :: p.did == input.did) then
      I.Threw(db, ConflictingEvidence)
    else if FindPassport(db.passports, input.subjectId).Some? then I.Threw(db, ConflictingEvidence)
    else if exists p | p in db.passports :: p.passportId == passportId || (input.did.Some? && p.did == input.did) then
      I.Threw(db, ConstraintFailed)
    else
      var (credentials, complete) := K.Enrolled(db.credentials, passportId, input.publicKeys, input.capabilities, now);
      var db' := db.(passports := db.passports + [NewPassport(input, now, passportId)], credentials := credentials);
      if complete then I.Returned(db', Arr([Json.Text(passportId), Json.Text(input.subjectId)]))
      else I.Threw(db', ConstraintFailed)
  }

  function PassportHandler(input: PassportInput, now: Str, passportId: Str): I.Handler<Db, Error>
  {
    (db: Db) => CreatePassport(db, input, now, passportId)
  }

  /** The idempotency hash covers the whole request body, of which the handler reads some parts. */
  function PassportCall(body: JsonValue, input: PassportInput, key: Option<Str>, now: Str, passportId: Str)
    : I.Call<Db, Error>
  {
    I.Call(PASSPORTS_ENDPOINT, key, body, PassportHandler(input, now, passportId))
  }

  function WithMetadata(passports: seq<Passport>, passportId: Str, metadata: JsonValue): (r: seq<Passport>)
    ensures |r| == |passports|
    ensures forall i | 0 <= i < |r| ::
              r[i] == if passports[i].passportId == passportId
                      then passports[i].(metadata := metadata) else passports[i]
  {
    if passports == [] then []
    else
      [if passports[0].passportId == passportId then passports[0].(metadata := metadata) else passports[0]]
      + WithMetadata(passports[1..], passportId, metadata)
  }

  /** rotatePassportKey: one more key, under a key id that the passport does not have; metadata is what the
      lifecycle entries make of the passport's. */
  function RotateKey(db: Db, subject: Str, key: K.PublicKey, metadata: JsonValue, now: Str): (Db, Result<()>)
  {
    match EnsureSubject(db, subject)
    case Err(e) => (db, Err(e))
    case Ok(p) =>
      if K.HasKid(db.credentials.keys, p.passportId, key.kid) then (db, Err(ConflictingEvidence))
      else
        var keys := db.credentials.keys + [K.KeyRow(p.passportId, key, now)];
        (db.(credentials := db.credentials.(keys := keys),
             passports := WithMetadata(db.passports, p.passportId, metadata)),
         Ok(()))
  }

  // ---------------------------------------------------------------- snapshots

  /** recomputeSnapshot: an upsert; it refuses subjects that are not active. */
  function RecomputeSnapshot(env: Env, db: Db, subject: Str, now: Str): (Db, Result<SnapshotRow>)
  {
    match EnsureSubject(db, subject)
    case Err(e) => (db, Err(e))
    case Ok(_) =>
      var row := env.snapshotOf(db, subject, now).(subjectId := subject);
      (db.(snapshots := db.snapshots[subject := row]), Ok(row))
  }

  /** getSnapshot(subject) ?? recomputeSnapshot(subject) */
  function SnapshotFor(env: Env, db: Db, subject: Str, now: Str): (Db, Result<SnapshotRow>)
  {
    if subject in db.snapshots then (db, Ok(db.snapshots[subject])) else RecomputeSnapshot(env, db, subject, now)
  }

  // ---------------------------------------------------------------- evidence

  function RecordEvidence(env: Env, db: Db, input: L.EvidenceInput, createdAt: Str, now: Str, evidenceId: Str)
    : I.Outcome<Db, Error>
  {
    if input.subjectId == [] || input.eventType !in env.eventTypes then I.Threw(db, InvalidRequest)
    else
      match EnsureSubject(db, input.subjectId)
      case Err(e) => I.Threw(db, e)
      case Ok(_) =>
        var hash := L.Fingerprint(input);
        match L.IdOfHash(db.evidence.rows, hash)
        case Some(existing) => I.Returned(db, Json.Text(existing))
        case None =>
          if L.HasId(db.evidence, evidenceId) then I.Threw(db, ConstraintFailed)
          else
            var recorded := db.(evidence := L.Persisted(db.evidence, evidenceId, hash, input, createdAt));
            var (computed, snapshot) := RecomputeSnapshot(env, recorded, input.subjectId, now);
            match snapshot
            case Err(e) => I.Threw(computed, e)
            case Ok(_) =>
              I.Returned(if input.eventType == env.revokeType
                         then SetPassportStatus(computed, input.subjectId, Revoked).0 else computed,
                         Json.Text(evidenceId))
  }

  function EvidenceHandler(env: Env, input: L.EvidenceInput, createdAt: Str, now: Str, evidenceId: Str)
    : I.Handler<Db, Error>
  {
    (db: Db) => RecordEvidence(env, db, input, createdAt, now, evidenceId)
  }

  /** The body is hashed whole; its evidence and created_at are what the handler reads. */
  function EvidenceCall(env: Env, body: JsonValue, key: Option<Str>, stamp: Str, now: Str, evidenceId: Str)
    : I.Call<Db, Error>
  {
    I.Call(EVIDENCE_ENDPOINT, key, body,
           EvidenceHandler(env, env.evidenceOf(body), OrElse(env.createdAtOf(body), stamp), now, evidenceId))
  }

  // ---------------------------------------------------------------- resolving

  /** getPolicy: the row, or the built-in policy. */
  function GetPolicy(env: Env, id: Str, version: Str): R.Policy
  {
    if (id, version) in env.policies then env.policies[(id, version)] else env.defaultPolicy
  }

  /** `${policy_id}@${version}` */
  function PolicyVersion(policy: R.Policy): Str
  {
    policy.id + [AT_SIGN] + policy.version
  }

  datatype ResolveInput = ResolveInput(
    subjectId: Str, context: JsonValue, policyId: Option<Str>, policyVersion: Option<Str>, candidates: seq<Str>)

  function OrElse(s: Option<Str>, fallback: Str): Str
  {
    match s
    case Some(x) => x
    case None => fallback
  }

  datatype Recommendation = Recommendation(subjectId: Str, score: int, fit: real)

  function ActiveExcept(passports: seq<Passport>, subject: Str): seq<Str>
  {
    if passports == [] then []
    else (if passports[0].status == Active && passports[0].subjectId != subject then [passports[0].subjectId] else [])
         + ActiveExcept(passports[1..], subject)
  }

  function ValidatorFit(v: R.Vector, context: R.Context): real
  {
    match context.domain
    case Some(d) => if d in v.domainCompetence then v.domainCompetence[d] else 0.2
    case None => 0.2
  }

  function Recommend(env: Env, subject: Str, row: SnapshotRow, context: R.Context, policy: R.Policy)
    : seq<Recommendation>
  {
    var computed := R.ComputeResolution(row.vector, row.counts, context, policy, env.config);
    if !R.ValidationEligible(computed.band, context, policy) then []
    else if row.vector.collusionRisk.Some? && row.vector.collusionRisk.value >= 0.55 then []
    else
      var fit := Rounding.Clamp(0.0, 0.8 * ValidatorFit(row.vector, context) + 0.2 * computed.confidence, 1.0);
      [Recommendation(subject, computed.score, Rounding.Round(fit * 100.0) as real / 100.0)]
  }

  /** The candidate loop of recommendValidators, which may compute missing snapshots on its way and
      fails with the first candidate whose snapshot it cannot compute. */
  function Candidates(env: Env, db: Db, exclude: Str, candidates: seq<Str>, context: R.Context, policy: R.Policy,
                      now: Str)
    : (Db, Result<seq<Recommendation>>)
    decreases |candidates|
  {
    if candidates == [] then (db, Ok([]))
    else if candidates[0] == exclude then Candidates(env, db, exclude, candidates[1..], context, policy, now)
    else
      var (db1, row) := SnapshotFor(env, db, candidates[0], now);
      match row
      case Err(e) => (db1, Err(e))
      case Ok(snapshot) =>
        var (db2, rest) := Candidates(env, db1, exclude, candidates[1..], context, policy, now);
        match rest
        case Err(e) => (db2, Err(e))
        case Ok(more) => (db2, Ok(Recommend(env, candidates[0], snapshot, context, policy) + more))
  }

  function BetterFit(collate: (Str, Str) -> int): (Recommendation, Recommendation) -> bool
  {
    (a: Recommendation, b: Recommendation) =>
      a.fit > b.fit || (a.fit == b.fit
                        && (a.score > b.score || (a.score == b.score && collate(a.subjectId, b.subjectId) < 0)))
  }

  /** recommendValidators: the three best-fitting eligible candidates. */
  function RecommendValidators(env: Env, db: Db, input: ResolveInput, context: R.Context, policy: R.Policy, now: Str)
    : (Db, Result<seq<Recommendation>>)
  {
    var candidates := if input.candidates != [] then input.candidates else ActiveExcept(db.passports, input.subjectId);
    var (db', found) := Candidates(env, db, input.subjectId, candidates, context, policy, now);
    match found
    case Err(e) => (db', Err(e))
    case Ok(all) =>
      var sorted := Ordering.Sort(BetterFit(env.collate), all);
      (db', Ok(if |sorted| <= 3 then sorted else sorted[..3]))
  }

  predicate HasTrace(traces: seq<Trace>, id: Str)
  {
    exists i | 0 <= i < |traces| :: traces[i].traceId == id
  }

  /** The two inserts of resolveTrust. Either can fail on a repeated id, the second after the first
      has been made. */
  function InsertResolution(db: Db, row: ResolutionRow, trace: Trace): (Db, Result<()>)
  {
    if row.resolutionId in db.resolutions || exists id | id in db.resolutions ::
      db.resolutions[id].traceId == row.traceId then
      (db, Err(ConstraintFailed))
    else
      var inserted := db.(resolutions := db.resolutions[row.resolutionId := row]);
      if HasTrace(db.traces, trace.traceId) then (inserted, Err(ConstraintFailed))
      else (inserted.(traces := db.traces + [trace]), Ok(()))
  }

  /** resolveTrust */
  function ResolveTrust(env: Env, db: Db, input: ResolveInput, now: Str, resolutionId: Str, traceId: Str)
    : (Db, Result<ResolutionRow>)
  {
    match EnsureSubject(db, input.subjectId)
    case Err(e) => (db, Err(e))
    case Ok(_) =>
      var policy := GetPolicy(env, OrElse(input.policyId, env.defaultPolicy.id),
                              OrElse(input.policyVersion, env.defaultPolicy.version));
      var (db1, row) := SnapshotFor(env, db, input.subjectId, now);
      match row
      case Err(e) => (db1, Err(e))
      case Ok(snapshot) =>
        var context := env.contextOf(input.context);
        var computed := R.ComputeResolution(snapshot.vector, snapshot.counts, context, policy, env.config);
        var (db2, recommended) := RecommendValidators(env, db1, input, context, policy, now);
        match recommended
        case Err(e) => (db2, Err(e))
        case Ok(validators) =>
          var resolution := ResolutionRow(resolutionId, input.subjectId, computed.score, computed.band,
                                          computed.decision,
                                          computed.confidence, traceId, PolicyVersion(policy), now);
          var trace := Trace(traceId, input.subjectId, Some(resolutionId), Some(snapshot), input.context,
                             PolicyVersion(policy), now);
          var (db3, inserted) := InsertResolution(db2, resolution, trace);
          match inserted
          case Err(e) => (db3, Err(e))
          case Ok(_) =>
            if context.risk == R.High && computed.confidence < policy.minimumConfidenceHighRisk && validators == [] then
              (db3, Err(LowConfidence))
            else (db3, Ok(resolution))
  }

  // ---------------------------------------------------------------- replaying

  /** The first two parts of policyVersion.split("@"); the second may be missing. */
  function SplitVersion(s: Str): (Str, Option<Str>)
  {
    var i := IndexOf(AT_SIGN, s);
    if i == |s| then (s, None)
    else
      var rest := s[i + 1..];
      (s[..i], Some(rest[..IndexOf(AT_SIGN, rest)]))
  }

  /** The policy a trace is replayed under. */
  function PolicyOfTrace(env: Env, policyVersion: Str): R.Policy
  {
    var (id, version) := SplitVersion(policyVersion);
    GetPolicy(env, id, OrElse(version, env.defaultPolicy.version))
  }

  function FindTrace(traces: seq<Trace>, id: Str): (r: Option<Trace>)
    ensures r.Some? ==> r.value in traces && r.value.traceId == id
    ensures r.None? ==> !HasTrace(traces, id)
  {
    if traces == [] then None
    else if traces[0].traceId == id then Some(traces[0])
    else
      var r := FindTrace(traces[1..], id);
      assert forall i | 0 < i < |traces| :: traces[i] == traces[1..][i - 1];
      r
  }

  /** The replay part of getTrace: whether score, band and decision come out as stored, or None when
      the trace holds no resolution to replay. */
  function Replay(env: Env, db: Db, traceId: Str): Result<Option<bool>>
  {
    match FindTrace(db.traces, traceId)
    case None => Err(TraceUnavailable)
    case Some(trace) =>
      if trace.resolutionId.None? then Ok(None)
      else
        var policy := PolicyOfTrace(env, trace.policyVersion);
        var snapshot := if trace.snapshot.Some? then trace.snapshot
                        else if trace.subjectId in db.snapshots then Some(db.snapshots[trace.subjectId]) else None;
        if FindPassport(db.passports, trace.subjectId).None? || snapshot.None?
          || trace.resolutionId.value !in db.resolutions then Ok(None)
        else
          var stored := db.resolutions[trace.resolutionId.value];
          var again := R.ComputeResolution(snapshot.value.vector, snapshot.value.counts, env.contextOf(trace.context),
                                           policy, env.config);
          Ok(Some(again.score == stored.score && again.band == stored.band && again.decision == stored.decision))
  }

  // ---------------------------------------------------------------- portability

  datatype Receipt = Receipt(receiptId: Str, subjectId: Str, sourceEnvironment: Str, targetNetwork: Str,
                             signature: Signature)

  datatype Bundle = Bundle(
    sourceEnvironment: Str, subject: Passport, publicKeys: seq<K.PublicKey>, capabilities: seq<K.Capability>,
    snapshot: SnapshotRow, evidence: seq<L.Evidence>, traceRefs: seq<Str>, receipt: Receipt)

  function EvidenceIds(es: seq<L.Evidence>): seq<Json>
  {
    if es == [] then [] else [Json.Text(es[0].evidenceId)] + EvidenceIds(es[1..])
  }

  function Texts(ss: seq<Str>): seq<Json>
  {
    if ss == [] then [] else [Json.Text(ss[0])] + Texts(ss[1..])
  }

  /** A whole number as JSON prints it. */
  function WholeNumber(n: int): Number
  {
    var digits := NatText(if n < 0 then -n else n);
    Normalize(n < 0, digits, |digits|)
  }

  // source_environment
  const SOURCE_ENVIRONMENT: Str :=
    [0x73, 0x6F, 0x75, 0x72, 0x63, 0x65, 0x5F, 0x65, 0x6E, 0x76, 0x69, 0x72, 0x6F, 0x6E, 0x6D, 0x65, 0x6E, 0x74]
  // target_network
  const TARGET_NETWORK: Str := [0x74, 0x61, 0x72, 0x67, 0x65, 0x74, 0x5F, 0x6E, 0x65, 0x74, 0x77, 0x6F, 0x72, 0x6B]
  // snapshot_version
  const SNAPSHOT_VERSION: Str :=
    [0x73, 0x6E, 0x61, 0x70, 0x73, 0x68, 0x6F, 0x74, 0x5F, 0x76, 0x65, 0x72, 0x73, 0x69, 0x6F, 0x6E]
  // evidence_ids
  const EVIDENCE_IDS: Str := [0x65, 0x76, 0x69, 0x64, 0x65, 0x6E, 0x63, 0x65, 0x5F, 0x69, 0x64, 0x73]
  // trace_refs
  const TRACE_REFS: Str := [0x74, 0x72, 0x61, 0x63, 0x65, 0x5F, 0x72, 0x65, 0x66, 0x73]

  function PayloadFields(subject: Json, source: Json, target: Json, version: Json, evidenceIds: Json, traceRefs: Json)
    : seq<Field>
  {
    [Field(L.SUBJECT_ID, subject), Field(SOURCE_ENVIRONMENT, source), Field(TARGET_NETWORK, target),
     Field(SNAPSHOT_VERSION, version), Field(EVIDENCE_IDS, evidenceIds), Field(TRACE_REFS, traceRefs)]
  }

  /** What a portability receipt signs. */
  function ReceiptPayload(subject: Str, source: Str, target: Str, version: int, evidence: seq<L.Evidence>,
                          traceRefs: seq<Str>): Json
  {
    Obj(PayloadFields(Json.Text(subject), Json.Text(source), Json.Text(target), Json.Num(WholeNumber(version)),
                      Arr(EvidenceIds(evidence)), Arr(Texts(traceRefs))))
  }

  datatype ExportInput = ExportInput(
    subjectId: Str, includeEvidence: bool, evidenceLimit: Option<int>, includeTraceIds: bool,
    targetNetwork: Option<Str>)

  function NewerTrace(): (Trace, Trace) -> bool
  {
    (a: Trace, b: Trace) => Less(b.createdAt, a.createdAt)
  }

  function TracesOf(traces: seq<Trace>, subject: Str): seq<Trace>
  {
    if traces == [] then []
    else (if traces[0].subjectId == subject then [traces[0]] else []) + TracesOf(traces[1..], subject)
  }

  function TraceIds(traces: seq<Trace>): seq<Str>
  {
    if traces == [] then [] else [traces[0].traceId] + TraceIds(traces[1..])
  }

  function Take<T>(s: seq<T>, n: int): (r: seq<T>)
    ensures exists k | 0 <= k <= |s| :: r == s[..k]
  {
    if n >= |s| then assert s == s[..|s|]; s else if n <= 0 then s[..0] else s[..n]
  }

  function ExportedEvidence(db: Db, input: ExportInput): seq<L.Evidence>
  {
    if !input.includeEvidence then []
    else
      var limit := match input.evidenceLimit case Some(n) => n case None => 25;
      Take(L.ListEvidence(db.evidence, input.subjectId), if limit < 1 then 1 else limit)
  }

  /** The bundle that is built and signed for a subject. */
  function BundleOf(env: Env, db: Db, passport: Passport, snapshot: SnapshotRow, input: ExportInput, receiptId: Str)
    : Bundle
  {
    var evidence := ExportedEvidence(db, input);
    var traceRefs := ExportedTraces(db, input);
    var target := OrElse(input.targetNetwork, env.environment);
    var hash := HashPayload(ReceiptPayload(passport.subjectId, env.environment, target, snapshot.version, evidence,
                                           traceRefs));
    Bundle(env.environment, passport, K.KeysOf(db.credentials.keys, passport.passportId),
           K.CapabilitiesOf(db.credentials.capabilities, passport.passportId), snapshot, evidence, traceRefs,
           Receipt(receiptId, passport.subjectId, env.environment, target, HmacSha256(env.signingKey, hash)))
  }

  function ExportedTraces(db: Db, input: ExportInput): seq<Str>
  {
    if !input.includeTraceIds then []
    else Take(TraceIds(Ordering.Sort(NewerTrace(), TracesOf(db.traces, input.subjectId))), 20)
  }

  /** The receipt of an export is stored with the payload's hash. */
  function BookExport(db: Db, b: Bundle): (Db, Result<Bundle>)
  {
    if b.receipt.receiptId in db.receipts then (db, Err(ConstraintFailed))
    else
      (db.(receipts := db.receipts[b.receipt.receiptId :=
                                     ReceiptRow(b.receipt.subjectId, Export, b.receipt.targetNetwork, BundleHash(b),
                                                b.receipt.signature)]),
       Ok(b))
  }

  /** exportTrustBundle */
  function ExportTrustBundle(env: Env, db: Db, input: ExportInput, now: Str, receiptId: Str): (Db, Result<Bundle>)
  {
    match EnsureSubject(db, input.subjectId)
    case Err(e) => (db, Err(e))
    case Ok(passport) =>
      var (db1, row) := SnapshotFor(env, db, input.subjectId, now);
      match row
      case Err(e) => (db1, Err(e))
      case Ok(snapshot) =>
        BookExport(db1, BundleOf(env, db1, passport, snapshot, input, receiptId))
  }

  function BundlePayload(b: Bundle): Json
  {
    ReceiptPayload(b.subject.subjectId, b.sourceEnvironment, b.receipt.targetNetwork, b.snapshot.version, b.evidence,
                   b.traceRefs)
  }

  function BundleHash(b: Bundle): Digest
  {
    HashPayload(BundlePayload(b))
  }

  /** verifyPortabilityReceipt */
  predicate VerifyReceipt(env: Env, b: Bundle)
  {
    HmacSha256(env.signingKey, BundleHash(b)) == b.receipt.signature
  }

  /** { ...fields, [key]: value } */
  function WithField(fields: seq<Field>, key: Str, value: JsonValue): (r: seq<Field>)
    requires Proper(Obj(fields))
    ensures Proper(Obj(r)) && Has(r, key) && Get(r, key) == value
    ensures forall k | k != key && Has(fields, k) :: Has(r, k) && Get(r, k) == Get(fields, k)
  {
    var r := if Has(fields, key)
             then seq(|fields|, i requires 0 <= i < |fields| =>
                        if fields[i].key == key then Field(key, value) else fields[i])
             else fields + [Field(key, value)];
    WithFieldHolds(fields, key, value, r);
    r
  }

  /** r is fields with the value under key replaced, or appended when there is none. */
  ghost predicate Puts(fields: seq<Field>, key: Str, value: JsonValue, r: seq<Field>)
  {
    && |fields| <= |r| && (Has(fields, key) <==> |r| == |fields|)
    && (forall i | 0 <= i < |fields| :: r[i] == if fields[i].key == key then Field(key, value) else fields[i])
    && (|r| > |fields| ==> |r| == |fields| + 1 && r[|fields|] == Field(key, value))
  }

  lemma PutsDistinct(fields: seq<Field>, key: Str, value: JsonValue, r: seq<Field>)
    requires Distinct(Keys(fields)) && Puts(fields, key, value, r)
    ensures Distinct(Keys(r))
  {
    forall i, j | 0 <= i < j < |r| ensures Keys(r)[i] != Keys(r)[j] {
      assert Keys(fields)[i] == r[i].key;
      assert j < |fields| ==> Keys(fields)[j] == r[j].key;
    }
  }

  lemma PutsFinds(fields: seq<Field>, key: Str, value: JsonValue, r: seq<Field>)
    requires Distinct(Keys(r)) && Puts(fields, key, value, r)
    ensures Has(r, key) && Get(r, key) == value
  {
    if Has(fields, key) {
      var i :| 0 <= i < |fields| && fields[i].key == key;
      GetAt(r, i);
    } else {
      GetAt(r, |fields|);
    }
  }

  lemma PutsKeeps(fields: seq<Field>, key: Str, value: JsonValue, r: seq<Field>, k: Str)
    requires Distinct(Keys(fields)) && Distinct(Keys(r)) && Puts(fields, key, value, r) && k != key && Has(fields, k)
    ensures Has(r, k) && Get(r, k) == Get(fields, k)
  {
    var i :| 0 <= i < |fields| && fields[i].key == k;
    GetAt(fields, i);
    GetAt(r, i);
  }

  lemma WithFieldHolds(fields: seq<Field>, key: Str, value: JsonValue, r: seq<Field>)
    requires Proper(Obj(fields)) && Puts(fields, key, value, r)
    ensures Proper(Obj(r)) && Has(r, key) && Get(r, key) == value
    ensures forall k | k != key && Has(fields, k) :: Has(r, k) && Get(r, k) == Get(fields, k)
  {
    PutsDistinct(fields, key, value, r);
    PutsFinds(fields, key, value, r);
    forall k | k != key && Has(fields, k) ensures Has(r, k) && Get(r, k) == Get(fields, k) {
      PutsKeeps(fields, key, value, r, k);
    }
  }

  /** The bundle's metadata, and where it came from. */
  function ImportedMetadata(b: Bundle): (m: JsonValue)
    ensures m.Obj? && Has(m.fields, IMPORTED_FROM) && Has(m.fields, IMPORTED_RECEIPT)
    ensures Get(m.fields, IMPORTED_FROM) == Json.Text(b.sourceEnvironment)
    ensures Get(m.fields, IMPORTED_RECEIPT) == Json.Text(b.receipt.receiptId)
    ensures b.subject.metadata.Obj? ==>
              forall k | Has(b.subject.metadata.fields, k) && k != IMPORTED_FROM && k != IMPORTED_RECEIPT ::
                Has(m.fields, k) && Get(m.fields, k) == Get(b.subject.metadata.fields, k)
  {
    assert |IMPORTED_FROM| != |IMPORTED_RECEIPT|;
    var given := if b.subject.metadata.Obj? then b.subject.metadata.fields else [];
    Obj(WithField(WithField(given, IMPORTED_FROM, Json.Text(b.sourceEnvironment)), IMPORTED_RECEIPT,
                  Json.Text(b.receipt.receiptId)))
  }

  function ImportedPassport(b: Bundle): PassportInput
  {
    PassportInput(b.subject.subjectId, b.subject.subjectType, b.subject.did, b.subject.issuerId, ImportedMetadata(b),
                  b.publicKeys, b.capabilities)
  }

  function ImportKey(b: Bundle): Str
  {
    IMPORT_PASSPORT + b.receipt.receiptId
  }

  /** The passport part of importTrustBundle: an idempotent createPassport unless the subject is known. */
  function RegisterUnlessKnown(st: Store, subject: Str, call: I.Call<Db, Error>): (Store, Result<()>)
  {
    if FindPassport(st.app.passports, subject).Some? then (st, Ok(()))
    else
      var (st', reply) := I.Step(st, call);
      match reply
      case Response(_) => (st', Ok(()))
      case Conflict => (st', Err(IdempotencyConflict))
      case Failure(e) => (st', Err(e))
  }

  function ImportCall(env: Env, b: Bundle, now: Str, passportId: Str): I.Call<Db, Error>
  {
    PassportCall(env.importBody(b), ImportedPassport(b), Some(ImportKey(b)), now, passportId)
  }

  /** The snapshot part: the bundle's snapshot is taken over when there is none or in mirror mode;
      otherwise new evidence makes the snapshot be computed again. */
  function ImportSnapshot(env: Env, db: Db, b: Bundle, mirror: bool, imported: int, now: Str): (Db, Result<()>)
  {
    if b.subject.subjectId !in db.snapshots || mirror then
      (db.(snapshots := db.snapshots[b.snapshot.subjectId := b.snapshot]), Ok(()))
    else if imported > 0 then
      var (db', row) := RecomputeSnapshot(env, db, b.subject.subjectId, now);
      match row
      case Err(e) => (db', Err(e))
      case Ok(_) => (db', Ok(()))
    else (db, Ok(()))
  }

  function ImportReceipt(db: Db, b: Bundle): (Db, Result<()>)
  {
    if b.receipt.receiptId in db.receipts then (db, Err(ConstraintFailed))
    else
      (db.(receipts := db.receipts[b.receipt.receiptId :=
                                     ReceiptRow(b.subject.subjectId, Import, b.receipt.targetNetwork, BundleHash(b),
                                                b.receipt.signature)]),
       Ok(()))
  }

  /** The rest of importTrustBundle, once the evidence loop has left tables and counter as given. */
  function ImportBeside(env: Env, db: Db, evidence: L.Tables, imported: int, b: Bundle, mirror: bool, now: Str)
    : (Db, Result<int>)
  {
    var (db1, snapshot) := ImportSnapshot(env, db.(evidence := evidence), b, mirror, imported, now);
    match snapshot
    case Err(e) => (db1, Err(e))
    case Ok(_) =>
      var (db2, receipt) := ImportReceipt(db1, b);
      match receipt
      case Err(e) => (db2, Err(e))
      case Ok(_) => (db2, Ok(imported))
  }

  /** The part of importTrustBundle after the passport. */
  function ImportContents(env: Env, db: Db, b: Bundle, mirror: bool, now: Str): (Db, Result<int>)
  {
    ImportBeside(env, db, L.ImportAll(db.evidence, b.evidence), L.ImportCount(db.evidence, b.evidence), b, mirror, now)
  }

  function ImportVerified(env: Env, st: Store, b: Bundle, mirror: bool, now: Str, call: I.Call<Db, Error>)
    : (Store, Result<int>)
  {
    var (st1, passport) := RegisterUnlessKnown(st, b.subject.subjectId, call);
    match passport
    case Err(e) => (st1, Err(e))
    case Ok(_) =>
      var (db, result) := ImportContents(env, st1.app, b, mirror, now);
      (st1.(app := db), result)
  }

  /** importTrustBundle; the value is imported_evidence_count. */
  function ImportTrustBundle(env: Env, st: Store, b: Bundle, mirror: bool, now: Str, passportId: Str)
    : (Store, Result<int>)
  {
    if !VerifyReceipt(env, b) then (st, Err(InvalidRequest))
    else ImportVerified(env, st, b, mirror, now, ImportCall(env, b, now, passportId))
  }
}
