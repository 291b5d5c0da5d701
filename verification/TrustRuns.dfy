/** What every reachable state of the platform's tables satisfies: the evidence index agrees with the
    rows, and every trace that has a resolution replays to it as far as its policy is found again. */
module TrustRuns {
  import opened Utf16
  import opened CanonicalJson
  import opened JsonParser
  import opened CanonicalForm
  import opened TrustStore
  import R = Resolution
  import D = Dominance
  import K = Credentials
  import L = EvidenceLog
  import I = Idempotency

  // ---------------------------------------------------------------- finding the policy again

  /** Policy rows hold the policy their key names, and the built-in policy's row, if any, holds it. */
  ghost predicate RowsKeyed(env: Env)
  {
    && (forall k | k in env.policies :: env.policies[k].id == k.0 && env.policies[k].version == k.1)
    && var d := env.defaultPolicy; (d.id, d.version) in env.policies ==> env.policies[(d.id, d.version)] == d
  }

  predicate PlainNames(p: R.Policy)
  {
    AT_SIGN !in p.id && AT_SIGN !in p.version
  }

  /** A version string with exactly one @. */
  predicate OneAt(s: Str)
  {
    AT_SIGN in s && AT_SIGN !in s[IndexOf(AT_SIGN, s) + 1..]
  }

  lemma OneAtOfPlain(p: R.Policy)
    ensures OneAt(PolicyVersion(p)) <==> PlainNames(p)
  {
    var s := PolicyVersion(p);
    var i := IndexOf(AT_SIGN, s);
    assert s[|p.id|] == AT_SIGN;
    if AT_SIGN !in p.id {
      IndexOfSeparator(AT_SIGN, p.id, p.version);
      assert s[|p.id| + 1..] == p.version;
    } else {
      var j :| 0 <= j < |p.id| && p.id[j] == AT_SIGN;
      assert s[j] == AT_SIGN;
      assert i <= j by { assert AT_SIGN !in s[..i]; }
      assert s[i + 1..][|p.id| - (i + 1)] == AT_SIGN;
    }
  }

  lemma SplitJoined(p: R.Policy)
    ensures SplitVersion(PolicyVersion(p)) == (p.id, Some(p.version)) <==> PlainNames(p)
  {
    var s := PolicyVersion(p);
    var i := IndexOf(AT_SIGN, s);
    assert s[|p.id|] == AT_SIGN;
    if AT_SIGN !in p.id {
      IndexOfSeparator(AT_SIGN, p.id, p.version);
      assert s[..|p.id|] == p.id && s[|p.id| + 1..] == p.version;
      if AT_SIGN !in p.version {
        IndexOfAbsent(AT_SIGN, p.version);
        assert p.version[..|p.version|] == p.version;
      } else {
        assert IndexOf(AT_SIGN, p.version) < |p.version|;
      }
    } else if i < |s| {
      assert AT_SIGN !in s[..i];
    }
  }

  /** A policy read from its row is found again under the version string its resolutions carry,
      unless it is the built-in one, exactly when neither its id nor its version contains an @. */
  lemma PolicyFoundAgain(env: Env, id: Str, version: Str)
    requires RowsKeyed(env)
    ensures var p := GetPolicy(env, id, version);
            && (PlainNames(p) ==> PolicyOfTrace(env, PolicyVersion(p)) == p)
            && (p != env.defaultPolicy ==> (PolicyOfTrace(env, PolicyVersion(p)) == p <==> PlainNames(p)))
  {
    SplitJoined(GetPolicy(env, id, version));
  }

  // ---------------------------------------------------------------- replayable traces

  /** What replaying computes for a trace and its own snapshot. */
  function Recomputed(env: Env, trace: Trace, snapshot: SnapshotRow): R.Computed
  {
    R.ComputeResolution(snapshot.vector, snapshot.counts, env.contextOf(trace.context),
                        PolicyOfTrace(env, trace.policyVersion), env.config)
  }

  /** Score and decision come out as stored, and so does the band if the policy is found again. */
  ghost predicate Agrees(env: Env, trace: Trace, stored: ResolutionRow, again: R.Computed)
  {
    && again.score == stored.score && again.decision == stored.decision
    && (RowsKeyed(env) && OneAt(trace.policyVersion) ==> again.band == stored.band)
  }

  ghost predicate Replayable(env: Env, db: Db, trace: Trace)
  {
    trace.resolutionId.Some? ==>
      && FindPassport(db.passports, trace.subjectId).Some?
      && trace.snapshot.Some?
      && trace.resolutionId.value in db.resolutions
      && Agrees(env, trace, db.resolutions[trace.resolutionId.value], Recomputed(env, trace, trace.snapshot.value))
  }

  ghost predicate TracesReplay(env: Env, db: Db)
  {
    forall i | 0 <= i < |db.traces| :: Replayable(env, db, db.traces[i])
  }

  /** Nothing a trace depends on is lost or changed. */
  ghost predicate Keeps(db: Db, db': Db)
  {
    && (forall s | FindPassport(db.passports, s).Some? :: FindPassport(db'.passports, s).Some?)
    && (forall id | id in db.resolutions :: id in db'.resolutions && db'.resolutions[id] == db.resolutions[id])
  }

  lemma KeepsReplayable(env: Env, db: Db, db': Db)
    requires TracesReplay(env, db) && Keeps(db, db') && db'.traces == db.traces
    ensures TracesReplay(env, db')
  {
    forall i | 0 <= i < |db'.traces| ensures Replayable(env, db', db'.traces[i]) {
      StillReplayable(env, db, db', db.traces[i]);
    }
  }

  lemma StillReplayable(env: Env, db: Db, db': Db, trace: Trace)
    requires Replayable(env, db, trace) && Keeps(db, db')
    ensures Replayable(env, db', trace)
  {
  }

  lemma FindPassportPresent(passports: seq<Passport>, i: nat)
    requires i < |passports|
    ensures FindPassport(passports, passports[i].subjectId).Some?
  {
    assert passports[i] in passports;
  }

  lemma PassportsKept(passports: seq<Passport>, passports': seq<Passport>)
    requires forall i | 0 <= i < |passports| :: i < |passports'| && passports'[i].subjectId == passports[i].subjectId
    ensures forall s | FindPassport(passports, s).Some? :: FindPassport(passports', s).Some?
  {
    forall s | FindPassport(passports, s).Some? ensures FindPassport(passports', s).Some? {
      var p := FindPassport(passports, s).value;
      var i :| 0 <= i < |passports| && passports[i] == p;
      FindPassportPresent(passports', i);
    }
  }

  // ---------------------------------------------------------------- the whole-state invariant

  ghost predicate PassportsValid(db: Db)
  {
    forall i | 0 <= i < |db.passports| :: db.passports[i].subjectId != [] && db.passports[i].subjectType != Unlisted
  }

  ghost predicate SnapshotsKeyed(db: Db)
  {
    forall s | s in db.snapshots :: db.snapshots[s].subjectId == s
  }

  predicate HasPassport(passports: seq<Passport>, id: Str)
  {
    exists i | 0 <= i < |passports| :: passports[i].passportId == id
  }

  /** Keys and capabilities belong to passports, and a passport's key ids are distinct. */
  ghost predicate CredentialsValid(passports: seq<Passport>, t: K.Tables)
  {
    && K.KidsUnique(t.keys)
    && (forall i | 0 <= i < |t.keys| :: HasPassport(passports, t.keys[i].passportId))
    && forall i | 0 <= i < |t.capabilities| :: HasPassport(passports, t.capabilities[i].passportId)
  }

  ghost predicate Inv(env: Env, db: Db)
  {
    && L.IndexAgrees(db.evidence) && TracesReplay(env, db) && PassportsValid(db) && SnapshotsKeyed(db)
    && CredentialsValid(db.passports, db.credentials)
  }

  const EMPTY: Db := Db([], K.Tables([], []), L.Tables([], []), map[], map[], [], map[])

  lemma EmptyInv(env: Env)
    ensures Inv(env, EMPTY)
  {
  }

  // Every operation keeps the invariant.

  lemma SnapshotForInv(env: Env, db: Db, subject: Str, now: Str)
    requires Inv(env, db)
    ensures var db' := SnapshotFor(env, db, subject, now).0;
            && Inv(env, db') && db' == db.(snapshots := db'.snapshots)
    ensures var r := SnapshotFor(env, db, subject, now); r.1.Ok? ==>
            r.1.value.subjectId == subject && subject in r.0.snapshots
  {
    var db' := SnapshotFor(env, db, subject, now).0;
    KeepsReplayable(env, db, db');
  }

  lemma RecomputeInv(env: Env, db: Db, subject: Str, now: Str)
    requires Inv(env, db)
    ensures var db' := RecomputeSnapshot(env, db, subject, now).0;
            Inv(env, db') && db' == db.(snapshots := db'.snapshots)
  {
    KeepsReplayable(env, db, RecomputeSnapshot(env, db, subject, now).0);
  }

  lemma PassportsInv(env: Env, db: Db, passports: seq<Passport>, credentials: K.Tables)
    requires Inv(env, db) && PassportsValid(db.(passports := passports)) && CredentialsValid(passports, credentials)
    requires forall i | 0 <= i < |db.passports| ::
               i < |passports| && passports[i].subjectId == db.passports[i].subjectId
    ensures Inv(env, db.(passports := passports, credentials := credentials))
  {
    PassportsKept(db.passports, passports);
    KeepsReplayable(env, db, db.(passports := passports, credentials := credentials));
  }

  ghost predicate KeepsIds(passports: seq<Passport>, passports': seq<Passport>)
  {
    forall i | 0 <= i < |passports| :: i < |passports'| && passports'[i].passportId == passports[i].passportId
  }

  lemma OwnersKept(passports: seq<Passport>, passports': seq<Passport>, t: K.Tables)
    requires KeepsIds(passports, passports') && CredentialsValid(passports, t)
    ensures CredentialsValid(passports', t)
  {
    forall id | HasPassport(passports, id) ensures HasPassport(passports', id) {
      var i :| 0 <= i < |passports| && passports[i].passportId == id;
      assert passports'[i].passportId == id;
    }
  }

  lemma EnrolledValid(passports: seq<Passport>, t: K.Tables, id: Str, keys: seq<K.PublicKey>,
                      capabilities: seq<K.Capability>, now: Str)
    requires CredentialsValid(passports, t) && HasPassport(passports, id)
    ensures CredentialsValid(passports, K.Enrolled(t, id, keys, capabilities, now).0)
  {
    K.EnrolledUnique(t, id, keys, capabilities, now);
  }

  /** A passport id that no passport has owns no keys and capabilities. */
  lemma FreshIsUnused(passports: seq<Passport>, t: K.Tables, id: Str)
    requires CredentialsValid(passports, t) && forall p | p in passports :: p.passportId != id
    ensures K.Unused(t, id)
  {
    forall i | 0 <= i < |t.keys| ensures t.keys[i].passportId != id {
      assert HasPassport(passports, t.keys[i].passportId);
    }
    forall i | 0 <= i < |t.capabilities| ensures t.capabilities[i].passportId != id {
      assert HasPassport(passports, t.capabilities[i].passportId);
    }
  }

  lemma SetStatusInv(env: Env, db: Db, subject: Str, status: Status)
    requires Inv(env, db)
    ensures Inv(env, SetPassportStatus(db, subject, status).0)
  {
    var passports := WithStatus(db.passports, subject, status);
    OwnersKept(db.passports, passports, db.credentials);
    PassportsInv(env, db, passports, db.credentials);
  }

  lemma CreatePassportInv(env: Env, db: Db, input: PassportInput, now: Str, passportId: Str)
    requires Inv(env, db)
    ensures Inv(env, CreatePassport(db, input, now, passportId).state)
  {
    var p := NewPassport(input, now, passportId);
    var passports := db.passports + [p];
    if input.subjectId != [] && input.subjectType != Unlisted {
      OwnersKept(db.passports, passports, db.credentials);
      assert passports[|db.passports|].passportId == passportId;
      EnrolledValid(passports, db.credentials, passportId, input.publicKeys, input.capabilities, now);
      PassportsInv(env, db, passports,
                   K.Enrolled(db.credentials, passportId, input.publicKeys, input.capabilities, now).0);
    }
  }

  lemma RotateKeyInv(env: Env, db: Db, subject: Str, key: K.PublicKey, metadata: JsonValue, now: Str)
    requires Inv(env, db)
    ensures Inv(env, RotateKey(db, subject, key, metadata, now).0)
  {
    var found := EnsureSubject(db, subject);
    if found.Ok? && !K.HasKid(db.credentials.keys, found.value.passportId, key.kid) {
      RotatedInv(env, db, found.value, key, metadata, now);
    }
  }

  lemma KeyAddedValid(passports: seq<Passport>, t: K.Tables, id: Str, key: K.PublicKey, now: Str)
    requires CredentialsValid(passports, t) && HasPassport(passports, id) && !K.HasKid(t.keys, id, key.kid)
    ensures CredentialsValid(passports, t.(keys := t.keys + [K.KeyRow(id, key, now)]))
  {
    var rows := t.keys + [K.KeyRow(id, key, now)];
    forall i, j | 0 <= i < j < |rows|
      ensures rows[i].passportId != rows[j].passportId || rows[i].key.kid != rows[j].key.kid
    {
      assert rows[i] == t.keys[i];
    }
  }

  lemma RotatedInv(env: Env, db: Db, p: Passport, key: K.PublicKey, metadata: JsonValue, now: Str)
    requires Inv(env, db) && p in db.passports && !K.HasKid(db.credentials.keys, p.passportId, key.kid)
    ensures var keys := db.credentials.keys + [K.KeyRow(p.passportId, key, now)];
            Inv(env, db.(credentials := db.credentials.(keys := keys),
                         passports := WithMetadata(db.passports, p.passportId, metadata)))
  {
    var passports := WithMetadata(db.passports, p.passportId, metadata);
    var i :| 0 <= i < |db.passports| && db.passports[i] == p;
    KeyAddedValid(db.passports, db.credentials, p.passportId, key, now);
    var credentials := db.credentials.(keys := db.credentials.keys + [K.KeyRow(p.passportId, key, now)]);
    OwnersKept(db.passports, passports, credentials);
    PassportsInv(env, db, passports, credentials);
  }

  lemma EvidenceInv(env: Env, db: Db, evidence: L.Tables)
    requires Inv(env, db) && L.IndexAgrees(evidence)
    ensures Inv(env, db.(evidence := evidence))
  {
    KeepsReplayable(env, db, db.(evidence := evidence));
  }

  lemma {:induction false} CandidatesInv(env: Env, db: Db, exclude: Str, candidates: seq<Str>, context: R.Context,
                                         policy: R.Policy, now: Str)
    requires Inv(env, db)
    ensures var db' := Candidates(env, db, exclude, candidates, context, policy, now).0;
            Inv(env, db') && db' == db.(snapshots := db'.snapshots)
    decreases |candidates|
  {
    if candidates != [] {
      SnapshotForInv(env, db, candidates[0], now);
      CandidatesInv(env, db, exclude, candidates[1..], context, policy, now);
      CandidatesInv(env, SnapshotFor(env, db, candidates[0], now).0, exclude, candidates[1..], context, policy, now);
    }
  }

  lemma ResolutionsInv(env: Env, db: Db, row: ResolutionRow)
    requires Inv(env, db) && row.resolutionId !in db.resolutions
    ensures Inv(env, db.(resolutions := db.resolutions[row.resolutionId := row]))
  {
    KeepsReplayable(env, db, db.(resolutions := db.resolutions[row.resolutionId := row]));
  }

  lemma TraceInv(env: Env, db: Db, trace: Trace)
    requires Inv(env, db) && Replayable(env, db, trace)
    ensures Inv(env, db.(traces := db.traces + [trace]))
  {
    var db' := db.(traces := db.traces + [trace]);
    forall i | 0 <= i < |db'.traces| ensures Replayable(env, db', db'.traces[i]) {
      StillReplayable(env, db, db', if i < |db.traces| then db.traces[i] else trace);
    }
  }

  /** A resolution and its trace are stored together with everything the replay needs. */
  lemma InsertResolutionInv(env: Env, db: Db, row: ResolutionRow, trace: Trace)
    requires Inv(env, db) && trace.resolutionId == Some(row.resolutionId) && trace.snapshot.Some?
    requires FindPassport(db.passports, trace.subjectId).Some?
    requires Agrees(env, trace, row, Recomputed(env, trace, trace.snapshot.value))
    ensures Inv(env, InsertResolution(db, row, trace).0)
  {
    if row.resolutionId !in db.resolutions {
      ResolutionsInv(env, db, row);
      TraceInv(env, db.(resolutions := db.resolutions[row.resolutionId := row]), trace);
    }
  }

  ghost function Invariant(env: Env): Db -> bool
  {
    (db: Db) => Inv(env, db)
  }

  /** The state after persisting, before the snapshot is computed again. */
  function Recorded(db: Db, input: L.EvidenceInput, createdAt: Str, evidenceId: Str): Db
  {
    db.(evidence := L.Persisted(db.evidence, evidenceId, L.Fingerprint(input), input, createdAt))
  }

  lemma RecordKeeps(inv: Db -> bool, env: Env, db: Db, input: L.EvidenceInput, createdAt: Str, now: Str,
                    evidenceId: Str, recorded: Db)
    requires inv(db) && recorded == Recorded(db, input, createdAt, evidenceId)
    requires !L.HasHash(db.evidence, L.Fingerprint(input)) && !L.HasId(db.evidence, evidenceId) ==>
             && inv(RecomputeSnapshot(env, recorded, input.subjectId, now).0)
             && inv(SetPassportStatus(RecomputeSnapshot(env, recorded, input.subjectId, now).0, input.subjectId,
                                      Revoked).0)
    ensures inv(RecordEvidence(env, db, input, createdAt, now, evidenceId).state)
  {
  }

  lemma RecordedInv(env: Env, db: Db, input: L.EvidenceInput, createdAt: Str, evidenceId: Str)
    requires Inv(env, db) && !L.HasHash(db.evidence, L.Fingerprint(input)) && !L.HasId(db.evidence, evidenceId)
    ensures Inv(env, Recorded(db, input, createdAt, evidenceId))
  {
    L.PersistedAgrees(db.evidence, evidenceId, input, createdAt);
    EvidenceInv(env, db, Recorded(db, input, createdAt, evidenceId).evidence);
  }

  lemma RecomputedInv(env: Env, db: Db, subject: Str, now: Str)
    requires Inv(env, db)
    ensures Inv(env, RecomputeSnapshot(env, db, subject, now).0)
    ensures Inv(env, SetPassportStatus(RecomputeSnapshot(env, db, subject, now).0, subject, Revoked).0)
  {
    RecomputeInv(env, db, subject, now);
    SetStatusInv(env, RecomputeSnapshot(env, db, subject, now).0, subject, Revoked);
  }

  lemma RecordEvidenceInv(env: Env, db: Db, input: L.EvidenceInput, createdAt: Str, now: Str, evidenceId: Str)
    requires Inv(env, db)
    ensures Invariant(env)(RecordEvidence(env, db, input, createdAt, now, evidenceId).state)
  {
    var recorded := Recorded(db, input, createdAt, evidenceId);
    if !L.HasHash(db.evidence, L.Fingerprint(input)) && !L.HasId(db.evidence, evidenceId) {
      RecordedInv(env, db, input, createdAt, evidenceId);
      RecomputedInv(env, recorded, input.subjectId, now);
    }
    RecordKeeps(Invariant(env), env, db, input, createdAt, now, evidenceId, recorded);
  }

  function ResolutionOf(resolutionId: Str, subject: Str, computed: R.Computed, traceId: Str, policy: R.Policy, now: Str)
    : ResolutionRow
  {
    ResolutionRow(resolutionId, subject, computed.score, computed.band, computed.decision, computed.confidence,
                  traceId, PolicyVersion(policy), now)
  }

  function TraceOf(traceId: Str, subject: Str, resolutionId: Str, snapshot: SnapshotRow, context: JsonValue,
                   policy: R.Policy, now: Str): Trace
  {
    Trace(traceId, subject, Some(resolutionId), Some(snapshot), context, PolicyVersion(policy), now)
  }

  /** The state of every stage of resolveTrust satisfies inv, so its result does. */
  lemma ResolveKeeps(inv: Db -> bool, env: Env, db: Db, input: ResolveInput, policy: R.Policy, now: Str,
                     resolutionId: Str, traceId: Str)
    requires inv(db) && inv(SnapshotFor(env, db, input.subjectId, now).0)
    requires policy == GetPolicy(env, OrElse(input.policyId, env.defaultPolicy.id),
                                 OrElse(input.policyVersion, env.defaultPolicy.version))
    requires var db1 := SnapshotFor(env, db, input.subjectId, now).0;
             inv(RecommendValidators(env, db1, input, env.contextOf(input.context), policy, now).0)
    requires var (db1, row) := SnapshotFor(env, db, input.subjectId, now);
             var db2 := RecommendValidators(env, db1, input, env.contextOf(input.context), policy, now).0;
             row.Ok? && EnsureSubject(db, input.subjectId).Ok? ==>
               var computed := R.ComputeResolution(row.value.vector, row.value.counts, env.contextOf(input.context),
                                                   policy, env.config);
               inv(InsertResolution(db2, ResolutionOf(resolutionId, input.subjectId, computed, traceId, policy, now),
                                    TraceOf(traceId, input.subjectId, resolutionId, row.value, input.context, policy,
                                            now)).0)
    ensures inv(ResolveTrust(env, db, input, now, resolutionId, traceId).0)
  {
  }

  lemma RecommendInv(env: Env, db: Db, input: ResolveInput, context: R.Context, policy: R.Policy, now: Str)
    requires Inv(env, db)
    ensures var db' := RecommendValidators(env, db, input, context, policy, now).0;
            Inv(env, db') && db'.passports == db.passports
  {
    var candidates := if input.candidates != [] then input.candidates else ActiveExcept(db.passports, input.subjectId);
    CandidatesInv(env, db, input.subjectId, candidates, context, policy, now);
  }

  lemma ResolutionInv(env: Env, db: Db, id: Str, version: Str, subject: Str, snapshot: SnapshotRow,
                      context: JsonValue, policy: R.Policy,
                      now: Str, resolutionId: Str, traceId: Str)
    requires Inv(env, db) && FindPassport(db.passports, subject).Some? && policy == GetPolicy(env, id, version)
    ensures var computed := R.ComputeResolution(snapshot.vector, snapshot.counts, env.contextOf(context), policy,
                                                env.config);
            Inv(env, InsertResolution(db, ResolutionOf(resolutionId, subject, computed, traceId, policy, now),
                                      TraceOf(traceId, subject, resolutionId, snapshot, context, policy, now)).0)
  {
    OneAtOfPlain(policy);
    if RowsKeyed(env) {
      PolicyFoundAgain(env, id, version);
    }
    var computed := R.ComputeResolution(snapshot.vector, snapshot.counts, env.contextOf(context), policy, env.config);
    InsertResolutionInv(env, db, ResolutionOf(resolutionId, subject, computed, traceId, policy, now),
                        TraceOf(traceId, subject, resolutionId, snapshot, context, policy, now));
  }

  lemma ResolveTrustInv(env: Env, db: Db, input: ResolveInput, now: Str, resolutionId: Str, traceId: Str)
    requires Inv(env, db)
    ensures Invariant(env)(ResolveTrust(env, db, input, now, resolutionId, traceId).0)
  {
    var id, version := OrElse(input.policyId, env.defaultPolicy.id),
      OrElse(input.policyVersion, env.defaultPolicy.version);
    var policy := GetPolicy(env, id, version);
    SnapshotForInv(env, db, input.subjectId, now);
    var (db1, row) := SnapshotFor(env, db, input.subjectId, now);
    var context := env.contextOf(input.context);
    RecommendInv(env, db1, input, context, policy, now);
    if row.Ok? && EnsureSubject(db, input.subjectId).Ok? {
      ResolutionInv(env, RecommendValidators(env, db1, input, context, policy, now).0, id, version, input.subjectId,
                    row.value,
                    input.context, policy, now, resolutionId, traceId);
    }
    ResolveKeeps(Invariant(env), env, db, input, policy, now, resolutionId, traceId);
  }

  lemma ExportInv(env: Env, db: Db, input: ExportInput, now: Str, receiptId: Str)
    requires Inv(env, db)
    ensures Inv(env, ExportTrustBundle(env, db, input, now, receiptId).0)
  {
    SnapshotForInv(env, db, input.subjectId, now);
    var db1 := SnapshotFor(env, db, input.subjectId, now).0;
    ReceiptsInv(env, db1, ExportTrustBundle(env, db, input, now, receiptId).0.receipts);
  }

  lemma ReceiptsInv(env: Env, db: Db, receipts: map<Str, ReceiptRow>)
    requires Inv(env, db)
    ensures Inv(env, db.(receipts := receipts))
  {
    KeepsReplayable(env, db, db.(receipts := receipts));
  }

  lemma SnapshotsInv(env: Env, db: Db, row: SnapshotRow)
    requires Inv(env, db)
    ensures Inv(env, db.(snapshots := db.snapshots[row.subjectId := row]))
  {
    KeepsReplayable(env, db, db.(snapshots := db.snapshots[row.subjectId := row]));
  }

  lemma RegisterInv(env: Env, st: Store, body: JsonValue, key: Option<Str>, now: Str, freshId: Str)
    requires Inv(env, st.app)
    ensures Invariant(env)(I.Step(st, PassportCall(body, env.passportOf(body), key, now, freshId)).0.app)
  {
    CreatePassportInv(env, st.app, env.passportOf(body), now, freshId);
    I.StepKeeps(Invariant(env), st, PassportCall(body, env.passportOf(body), key, now, freshId));
  }

  lemma RecordInv(env: Env, st: Store, body: JsonValue, key: Option<Str>, stamp: Str, now: Str, freshId: Str)
    requires Inv(env, st.app)
    ensures Invariant(env)(I.Step(st, EvidenceCall(env, body, key, stamp, now, freshId)).0.app)
  {
    RecordEvidenceInv(env, st.app, env.evidenceOf(body), OrElse(env.createdAtOf(body), stamp), now, freshId);
    I.StepKeeps(Invariant(env), st, EvidenceCall(env, body, key, stamp, now, freshId));
  }

  lemma ImportContentsKeeps(inv: Db -> bool, env: Env, db: Db, b: Bundle, mirror: bool, now: Str)
    requires inv(db.(evidence := L.ImportAll(db.evidence, b.evidence)))
    requires forall db', imported: int | inv(db') :: inv(ImportSnapshot(env, db', b, mirror, imported, now).0)
    requires forall db' | inv(db') :: inv(ImportReceipt(db', b).0)
    ensures inv(ImportContents(env, db, b, mirror, now).0)
  {
  }

  /** What the passport's handler and the rest keep, the whole import keeps. */
  lemma ImportVerifiedKeeps(inv: Db -> bool, env: Env, st: Store, b: Bundle, mirror: bool, now: Str,
                            call: I.Call<Db, Error>)
    requires inv(st.app) && inv(call.handler(st.app).state)
    requires forall db | inv(db) :: inv(ImportContents(env, db, b, mirror, now).0)
    ensures inv(ImportVerified(env, st, b, mirror, now, call).0.app)
  {
    I.StepKeeps(inv, st, call);
  }

  lemma ImportSnapshotInv(env: Env, db: Db, b: Bundle, mirror: bool, imported: int, now: Str)
    requires Inv(env, db)
    ensures Inv(env, ImportSnapshot(env, db, b, mirror, imported, now).0)
  {
    SnapshotsInv(env, db, b.snapshot);
    RecomputeInv(env, db, b.subject.subjectId, now);
  }

  lemma ImportReceiptInv(env: Env, db: Db, b: Bundle)
    requires Inv(env, db)
    ensures Inv(env, ImportReceipt(db, b).0)
  {
    ReceiptsInv(env, db, ImportReceipt(db, b).0.receipts);
  }

  lemma ImportContentsInv(env: Env, db: Db, b: Bundle, mirror: bool, now: Str)
    requires Inv(env, db)
    ensures Invariant(env)(ImportContents(env, db, b, mirror, now).0)
  {
    var inv := Invariant(env);
    L.ImportAgrees(db.evidence, b.evidence);
    EvidenceInv(env, db, L.ImportAll(db.evidence, b.evidence));
    forall db, imported: int | inv(db) ensures inv(ImportSnapshot(env, db, b, mirror, imported, now).0) {
      ImportSnapshotInv(env, db, b, mirror, imported, now);
    }
    forall db | inv(db) ensures inv(ImportReceipt(db, b).0) {
      ImportReceiptInv(env, db, b);
    }
    ImportContentsKeeps(inv, env, db, b, mirror, now);
  }

  lemma ImportInv(env: Env, st: Store, b: Bundle, mirror: bool, now: Str, passportId: Str)
    requires Invariant(env)(st.app)
    ensures Invariant(env)(ImportTrustBundle(env, st, b, mirror, now, passportId).0.app)
  {
    var inv := Invariant(env);
    CreatePassportInv(env, st.app, ImportedPassport(b), now, passportId);
    forall db | inv(db) ensures inv(ImportContents(env, db, b, mirror, now).0) {
      ImportContentsInv(env, db, b, mirror, now);
    }
    ImportVerifiedKeeps(inv, env, st, b, mirror, now, ImportCall(env, b, now, passportId));
  }

  // ---------------------------------------------------------------- whole runs

  /** The steps of the platform. OtherTrace stands for the traces of routing and dispute decisions,
      which carry no resolution. */
  datatype Op =
    | Register(body: JsonValue, key: Option<Str>, now: Str, freshId: Str)
    | ChangeStatus(subject: Str, status: Status)
    | Rotate(subject: Str, newKey: K.PublicKey, metadata: JsonValue, now: Str)
    | Record(body: JsonValue, key: Option<Str>, stamp: Str, now: Str, freshId: Str)
    | Recompute(subject: Str, now: Str)
    | Resolve(request: ResolveInput, now: Str, resolutionId: Str, traceId: Str)
    | OtherTrace(trace: Trace)
    | ExportBundle(selection: ExportInput, now: Str, receiptId: Str)
    | ImportBundle(bundle: Bundle, mirror: bool, now: Str, freshId: Str)

  function Apply(env: Env, st: Store, op: Op): Store
  {
    match op
    case Register(body, key, now, freshId) => I.Step(st, PassportCall(body, env.passportOf(body), key, now, freshId)).0
    case ChangeStatus(subject, status) => st.(app := SetPassportStatus(st.app, subject, status).0)
    case Rotate(subject, key, metadata, now) => st.(app := RotateKey(st.app, subject, key, metadata, now).0)
    case Record(body, key, stamp, now, freshId) => I.Step(st, EvidenceCall(env, body, key, stamp, now, freshId)).0
    case Recompute(subject, now) => st.(app := RecomputeSnapshot(env, st.app, subject, now).0)
    case Resolve(input, now, resolutionId, traceId) =>
      st.(app := ResolveTrust(env, st.app, input, now, resolutionId, traceId).0)
    case OtherTrace(trace) =>
      if trace.resolutionId.Some? || HasTrace(st.app.traces, trace.traceId) then st
      else st.(app := st.app.(traces := st.app.traces + [trace]))
    case ExportBundle(input, now, receiptId) => st.(app := ExportTrustBundle(env, st.app, input, now, receiptId).0)
    case ImportBundle(b, mirror, now, freshId) => ImportTrustBundle(env, st, b, mirror, now, freshId).0
  }

  function Run(env: Env, st: Store, ops: seq<Op>): Store
  {
    if ops == [] then st else Apply(env, Run(env, st, ops[..|ops| - 1]), ops[|ops| - 1])
  }

  /** Every step keeps the invariant. */
  lemma StepInv(env: Env, st: Store, op: Op)
    requires Invariant(env)(st.app)
    ensures Invariant(env)(Apply(env, st, op).app)
  {
    match op
    case Register(body, key, now, freshId) => RegisterInv(env, st, body, key, now, freshId);
    case ChangeStatus(subject, status) => SetStatusInv(env, st.app, subject, status);
    case Rotate(subject, key, metadata, now) => RotateKeyInv(env, st.app, subject, key, metadata, now);
    case Record(body, key, stamp, now, freshId) => RecordInv(env, st, body, key, stamp, now, freshId);
    case Recompute(subject, now) => RecomputeInv(env, st.app, subject, now);
    case Resolve(input, now, resolutionId, traceId) => ResolveTrustInv(env, st.app, input, now, resolutionId, traceId);
    case OtherTrace(trace) => if trace.resolutionId.None? { TraceInv(env, st.app, trace); }
    case ExportBundle(input, now, receiptId) => ExportInv(env, st.app, input, now, receiptId);
    case ImportBundle(b, mirror, now, freshId) => ImportInv(env, st, b, mirror, now, freshId);
  }

  lemma {:induction false} RunInv(env: Env, ops: seq<Op>)
    ensures Invariant(env)(Run(env, I.Store(EMPTY, map[]), ops).app)
  {
    if ops == [] {
      EmptyInv(env);
    } else {
      RunInv(env, ops[..|ops| - 1]);
      StepInv(env, Run(env, I.Store(EMPTY, map[]), ops[..|ops| - 1]), ops[|ops| - 1]);
    }
  }

  /** What replaying the trace with this id reports. */
  ghost predicate ReplayAgrees(env: Env, db: Db, traceId: Str)
  {
    match FindTrace(db.traces, traceId)
    case None => Replay(env, db, traceId) == Err(TraceUnavailable)
    case Some(trace) =>
      if trace.resolutionId.None? then Replay(env, db, traceId) == Ok(None)
      else
        && trace.resolutionId.value in db.resolutions
        && var stored := db.resolutions[trace.resolutionId.value];
           var band := R.ScoreBand(stored.score, PolicyOfTrace(env, trace.policyVersion).bands);
           && Replay(env, db, traceId) == Ok(Some(band == stored.band))
           && (RowsKeyed(env) && OneAt(trace.policyVersion) ==> band == stored.band)
  }

  lemma ReplayMatches(env: Env, db: Db, traceId: Str)
    requires TracesReplay(env, db)
    ensures ReplayAgrees(env, db, traceId)
  {
    match FindTrace(db.traces, traceId)
    case None =>
    case Some(trace) =>
      var i :| 0 <= i < |db.traces| && db.traces[i] == trace;
      assert Replayable(env, db, trace);
  }

  /** Replay agreement: in every reachable state, whatever happened since, a trace that has a resolution
      replays to the stored score and decision. Replay reports a match exactly when the policy found under
      the trace's version string puts the stored score into the stored band, as it does when that string
      has just one @. */
  lemma EveryReplayMatches(env: Env, ops: seq<Op>, traceId: Str)
    ensures ReplayAgrees(env, Run(env, I.Store(EMPTY, map[]), ops).app, traceId)
  {
    RunInv(env, ops);
    ReplayMatches(env, Run(env, I.Store(EMPTY, map[]), ops).app, traceId);
  }

  lemma FindAppendedTrace(traces: seq<Trace>, trace: Trace)
    requires !HasTrace(traces, trace.traceId)
    ensures FindTrace(traces + [trace], trace.traceId) == Some(trace)
  {
    if traces != [] {
      assert (traces + [trace])[1..] == traces[1..] + [trace];
      assert forall i | 0 <= i < |traces[1..]| :: traces[1..][i] == traces[i + 1];
      FindAppendedTrace(traces[1..], trace);
    }
  }

  lemma InsertStores(db: Db, row: ResolutionRow, trace: Trace)
    requires InsertResolution(db, row, trace).1.Ok?
    ensures var db' := InsertResolution(db, row, trace).0;
            && FindTrace(db'.traces, trace.traceId) == Some(trace)
            && row.resolutionId in db'.resolutions && db'.resolutions[row.resolutionId] == row
            && db' == db.(resolutions := db'.resolutions, traces := db'.traces)
  {
    FindAppendedTrace(db.traces, trace);
  }

  /** A completed resolution is stored with its trace, which replays at once as the resolution says. */
  lemma ResolvedReplays(env: Env, db: Db, input: ResolveInput, now: Str, resolutionId: Str, traceId: Str)
    requires Inv(env, db) && ResolveTrust(env, db, input, now, resolutionId, traceId).1.Ok?
    ensures var (db', r) := ResolveTrust(env, db, input, now, resolutionId, traceId);
            var row := r.value;
            var band := R.ScoreBand(row.score, PolicyOfTrace(env, row.policyVersion).bands);
            && resolutionId in db'.resolutions && db'.resolutions[resolutionId] == row
            && Replay(env, db', traceId) == Ok(Some(band == row.band))
            && (RowsKeyed(env) && OneAt(row.policyVersion) ==> band == row.band)
  {
    var (db1, row) := SnapshotFor(env, db, input.subjectId, now);
    var policy := GetPolicy(env, OrElse(input.policyId, env.defaultPolicy.id),
                            OrElse(input.policyVersion, env.defaultPolicy.version));
    var db2 := RecommendValidators(env, db1, input, env.contextOf(input.context), policy, now).0;
    var computed := R.ComputeResolution(row.value.vector, row.value.counts, env.contextOf(input.context), policy,
                                        env.config);
    InsertStores(db2, ResolutionOf(resolutionId, input.subjectId, computed, traceId, policy, now),
                 TraceOf(traceId, input.subjectId, resolutionId, row.value, input.context, policy, now));
    ResolveTrustInv(env, db, input, now, resolutionId, traceId);
    ReplayMatches(env, ResolveTrust(env, db, input, now, resolutionId, traceId).0, traceId);
  }

  /** The bands put every score into different bands. */
  ghost predicate DifferEverywhere(a: seq<R.BandRange>, b: seq<R.BandRange>)
  {
    forall s | 0 <= s <= 100 :: R.ScoreBand(s, a) != R.ScoreBand(s, b)
  }

  /** A policy whose names hold an @, read back as the built-in policy, which has another band for every score. */
  ghost predicate LosesItsPolicy(env: Env, id: Str, version: Str)
  {
    && (id, version) in env.policies && !PlainNames(env.policies[(id, version)])
    && PolicyOfTrace(env, PolicyVersion(env.policies[(id, version)])) == env.defaultPolicy
    && DifferEverywhere(env.policies[(id, version)].bands, env.defaultPolicy.bands)
  }

  /** Bands that differ from the built-in ones at every score. */
  const UPSIDE_DOWN: seq<R.BandRange> := [
    R.BandRange(R.Privileged, 0.0, 19.0), R.BandRange(R.Quarantined, 20.0, 100.0)]

  lemma UpsideDownDiffers()
    ensures DifferEverywhere(UPSIDE_DOWN, D.DEFAULT_BANDS)
  {
    forall s | 0 <= s <= 100 ensures R.ScoreBand(s, UPSIDE_DOWN) != R.ScoreBand(s, D.DEFAULT_BANDS) {
      D.DefaultBands(s);
      assert R.ScoreBand(s, UPSIDE_DOWN[1..]) == R.Quarantined;
    }
  }

  /** Beside the built-in policy with its own bands, the id a@b with version 1 is split into a and b. */
  lemma AtSignSplit(env: Env, policy: R.Policy)
    requires policy.id == [0x61, AT_SIGN, 0x62] && policy.version == [0x31] && policy.bands == UPSIDE_DOWN
    requires (policy.id, policy.version) in env.policies && env.policies[(policy.id, policy.version)] == policy
    requires ([0x61], [0x62]) !in env.policies && env.defaultPolicy.bands == D.DEFAULT_BANDS
    ensures LosesItsPolicy(env, policy.id, policy.version)
  {
    UpsideDownDiffers();
    var s := PolicyVersion(policy);
    var rest := [0x62] + [AT_SIGN] + [0x31];
    IndexOfSeparator(AT_SIGN, [0x61], rest);
    IndexOfSeparator(AT_SIGN, [0x62], [0x31]);
    assert s == [0x61] + [AT_SIGN] + rest;
    assert s[..1] == [0x61] && s[1 + 1..] == rest && rest[..1] == [0x62];
    assert AT_SIGN in policy.id by { assert policy.id[1] == AT_SIGN; }
  }

  /** The first resolution of the only subject under such a policy is stored, and replay disagrees with it. */
  lemma AtSignBreaksReplay(env: Env, p: Passport, input: ResolveInput, now: Str, resolutionId: Str, traceId: Str)
    requires input.policyId.Some? && input.policyVersion.Some? && input.candidates == []
    requires LosesItsPolicy(env, input.policyId.value, input.policyVersion.value)
    requires p.status == Active && input.subjectId == p.subjectId
    ensures Replay(env, ResolveTrust(env, EMPTY.(passports := [p]), input, now, resolutionId, traceId).0, traceId)
            == Ok(Some(false))
  {
    var policy := env.policies[(input.policyId.value, input.policyVersion.value)];
    var (db1, row) := SnapshotFor(env, EMPTY.(passports := [p]), p.subjectId, now);
    assert ActiveExcept([p], p.subjectId) == [];
    var computed := R.ComputeResolution(row.value.vector, row.value.counts, env.contextOf(input.context), policy,
                                        env.config);
    InsertStores(db1, ResolutionOf(resolutionId, p.subjectId, computed, traceId, policy, now),
                 TraceOf(traceId, p.subjectId, resolutionId, row.value, input.context, policy, now));
  }

  /** Index agreement: in every reachable state, each stored hash is the fingerprint of the row as read back. */
  lemma EveryHashAgrees(env: Env, ops: seq<Op>, i: nat)
    requires i < |Run(env, I.Store(EMPTY, map[]), ops).app.evidence.rows|
    ensures var t := Run(env, I.Store(EMPTY, map[]), ops).app.evidence;
            t.rows[i].hash == L.Fingerprint(L.AsInput(L.ToEvidence(t, t.rows[i])))
  {
    RunInv(env, ops);
  }

  /** In every reachable state, no two rows share canonical content. */
  lemma EveryContentDiffers(env: Env, ops: seq<Op>, i: nat, j: nat)
    requires i < j < |Run(env, I.Store(EMPTY, map[]), ops).app.evidence.rows|
    ensures var t := Run(env, I.Store(EMPTY, map[]), ops).app.evidence;
            !L.SameContent(L.AsInput(L.ToEvidence(t, t.rows[i])), L.AsInput(L.ToEvidence(t, t.rows[j])))
  {
    RunInv(env, ops);
    L.ContentIsUnique(Run(env, I.Store(EMPTY, map[]), ops).app.evidence, i, j);
  }
}
