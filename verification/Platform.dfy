/** The platform object, which updates its tables in place, against the functions that say what its
    methods do. */
module Platform {
  import opened Utf16
  import opened CanonicalJson
  import opened JsonParser
  import opened CanonicalForm
  import opened TrustStore
  import Ordering
  import R = Resolution
  import K = Credentials
  import L = EvidenceLog
  import E = EvidenceTransfer
  import I = Idempotency
  import T = TrustRuns
  import P = Portability
  import Effects

  lemma ValidatorRowsExtend(id: Str, vs: seq<L.ValidatorInput>, i: nat)
    requires i < |vs|
    ensures L.ValidatorRowsOf(id, vs[..i + 1]) == L.ValidatorRowsOf(id, vs[..i]) + [L.ValidatorRowOf(id, vs[i])]
  {
    assert vs[..i + 1][..i] == vs[..i];
  }

  lemma ImportExtends(t: L.Tables, es: seq<L.Evidence>, i: nat)
    requires i < |es|
    ensures L.ImportAll(t, es[..i + 1]) == L.ImportOne(L.ImportAll(t, es[..i]), es[i])
    ensures L.ImportCount(t, es[..i + 1]) == L.ImportCount(t, es[..i])
            + if L.Knows(L.ImportAll(t, es[..i]), es[i]) then 0 else 1
  {
    assert es[..i + 1][..i] == es[..i];
  }

  /** What the candidate loop ends with when it has found some and what is left gives rest. */
  function Prepend(found: seq<Recommendation>, rest: (Db, Result<seq<Recommendation>>))
    : (Db, Result<seq<Recommendation>>)
  {
    match rest.1
    case Err(e) => rest
    case Ok(more) => (rest.0, Ok(found + more))
  }

  lemma PrependStep(found: seq<Recommendation>, next: seq<Recommendation>, rest: (Db, Result<seq<Recommendation>>))
    ensures Prepend(found, Prepend(next, rest)) == Prepend(found + next, rest)
    ensures Prepend([], rest) == rest
  {
    if rest.1.Ok? {
      assert found + (next + rest.1.value) == found + next + rest.1.value;
      assert [] + rest.1.value == rest.1.value;
    }
  }

  lemma CandidatesStep(env: Env, db: Db, exclude: Str, candidates: seq<Str>, context: R.Context, policy: R.Policy,
                       now: Str)
    requires candidates != [] && candidates[0] != exclude
    ensures var (db1, row) := SnapshotFor(env, db, candidates[0], now);
            Candidates(env, db, exclude, candidates, context, policy, now) ==
            if row.Err? then (db1, Err(row.error))
            else Prepend(Recommend(env, candidates[0], row.value, context, policy),
                         Candidates(env, db1, exclude, candidates[1..], context, policy, now))
  {
  }

  /** No passport has the subject, the id or the DID. */
  ghost predicate Unregistered(passports: seq<Passport>, input: PassportInput, passportId: Str)
  {
    forall p | p in passports ::
      p.subjectId != input.subjectId && p.passportId != passportId && (input.did.Some? ==> p.did != input.did)
  }

  /** The request passes every check that createPassport makes before it writes. */
  ghost predicate Admissible(passports: seq<Passport>, input: PassportInput, passportId: Str)
  {
    input.subjectId != [] && input.subjectType != Unlisted && Unregistered(passports, input, passportId)
  }

  /** The passport is stored and found. Its keys are those of the request before the first one that repeats a
      key id, and its capabilities are the request's, or none when a key id is repeated. Nothing else changed. */
  ghost predicate Enrolls(db: Db, db': Db, input: PassportInput, p: Passport)
  {
    && db' == db.(passports := db.passports + [p], credentials := db'.credentials)
    && EnsureSubject(db', input.subjectId) == Ok(p)
    && var keys := K.KeysOf(db'.credentials.keys, p.passportId);
       && keys <= input.publicKeys && K.DistinctKids(keys)
       && (keys != input.publicKeys ==> K.RepeatsKid(keys, input.publicKeys[|keys|].kid))
       && K.CapabilitiesOf(db'.credentials.capabilities, p.passportId)
          == if K.DistinctKids(input.publicKeys) then input.capabilities else []
  }

  lemma EnrollmentMeans(db: Db, input: PassportInput, now: Str, passportId: Str)
    requires T.CredentialsValid(db.passports, db.credentials) && Admissible(db.passports, input, passportId)
    ensures var outcome := TrustStore.CreatePassport(db, input, now, passportId);
            && (outcome.Returned? <==> K.DistinctKids(input.publicKeys))
            && (outcome.Threw? ==> outcome.error == ConstraintFailed)
            && Enrolls(db, outcome.state, input, NewPassport(input, now, passportId))
  {
    T.FreshIsUnused(db.passports, db.credentials, passportId);
    K.EnrolledMeans(db.credentials, passportId, input.publicKeys, input.capabilities, now);
    CreateEnrolls(db, input, now, passportId,
                  K.Enrolled(db.credentials, passportId, input.publicKeys, input.capabilities, now));
  }

  /** Past the checks, the passport is written, and what its keys and capabilities make of their tables. */
  lemma CreateEnrolls(db: Db, input: PassportInput, now: Str, passportId: Str, enrolled: (K.Tables, bool))
    requires Admissible(db.passports, input, passportId)
    requires enrolled == K.Enrolled(db.credentials, passportId, input.publicKeys, input.capabilities, now)
    ensures var outcome := TrustStore.CreatePassport(db, input, now, passportId);
            var p := NewPassport(input, now, passportId);
            && outcome.state == db.(passports := db.passports + [p], credentials := enrolled.0)
            && (outcome.Returned? <==> enrolled.1) && (outcome.Threw? ==> outcome.error == ConstraintFailed)
            && EnsureSubject(outcome.state, input.subjectId) == Ok(p)
  {
    assert FindPassport(db.passports, input.subjectId).None?;
    P.FindAppended(db.passports, NewPassport(input, now, passportId));
  }

  /** Registration completes exactly for an admissible request with distinct key ids. An inadmissible one
      changes nothing; a repeated key id leaves the passport and the keys before it. */
  ghost predicate Registers(db: Db, db': Db, complete: bool, input: PassportInput, p: Passport)
  {
    var admissible := Admissible(db.passports, input, p.passportId);
    && (complete <==> admissible && K.DistinctKids(input.publicKeys))
    && (if admissible then Enrolls(db, db', input, p) else db' == db)
  }

  lemma RegistrationMeans(db: Db, input: PassportInput, now: Str, passportId: Str, outcome: I.Outcome<Db, Error>)
    requires T.CredentialsValid(db.passports, db.credentials)
    requires outcome == TrustStore.CreatePassport(db, input, now, passportId)
    ensures Registers(db, outcome.state, outcome.Returned?, input, NewPassport(input, now, passportId))
  {
    if Admissible(db.passports, input, passportId) {
      EnrollmentMeans(db, input, now, passportId);
    }
  }

  /** A request that repeats a key id fails and still registers the subject, so that trying again conflicts. */
  lemma RepeatedKidRegisters(db: Db, input: PassportInput, now: Str, passportId: Str, again: Str, otherId: Str)
    requires T.CredentialsValid(db.passports, db.credentials) && Admissible(db.passports, input, passportId)
    requires !K.DistinctKids(input.publicKeys)
    ensures var outcome := TrustStore.CreatePassport(db, input, now, passportId);
            && outcome == I.Threw(outcome.state, ConstraintFailed)
            && EnsureSubject(outcome.state, input.subjectId) == Ok(NewPassport(input, now, passportId))
            && TrustStore.CreatePassport(outcome.state, input, again, otherId)
               == I.Threw(outcome.state, ConflictingEvidence)
  {
    EnrollmentMeans(db, input, now, passportId);
  }

  /** The first registration of all, with the same key twice, leaves a passport with one key. */
  lemma SameKeyTwice(subject: Str, key: K.PublicKey, now: Str, passportId: Str)
    requires subject != []
    ensures var input := PassportInput(subject, Agent, None, [], Null, [key, key], []);
            var outcome := TrustStore.CreatePassport(T.EMPTY, input, now, passportId);
            && outcome == I.Threw(outcome.state, ConstraintFailed)
            && outcome.state.passports == [NewPassport(input, now, passportId)]
            && K.KeysOf(outcome.state.credentials.keys, passportId) == [key]
  {
    var input := PassportInput(subject, Agent, None, [], Null, [key, key], []);
    var outcome := TrustStore.CreatePassport(T.EMPTY, input, now, passportId);
    assert input.publicKeys[0].kid == input.publicKeys[1].kid;
    EnrollmentMeans(T.EMPTY, input, now, passportId);
    var keys := K.KeysOf(outcome.state.credentials.keys, passportId);
    assert |keys| == 2 ==> keys == input.publicKeys;
    assert keys == [] ==> !K.RepeatsKid(keys, key.kid);
    assert keys == [key];
  }

  lemma KeyRowsExtend(id: Str, keys: seq<K.PublicKey>, i: nat, now: Str)
    requires i < |keys|
    ensures K.KeyRows(id, keys[..i + 1], now) == K.KeyRows(id, keys[..i], now) + [K.KeyRow(id, keys[i], now)]
  {
  }

  lemma CapabilityRowsExtend(id: Str, cs: seq<K.Capability>, i: nat, now: Str)
    requires i < |cs|
    ensures K.CapabilityRows(id, cs[..i + 1], now)
         == K.CapabilityRows(id, cs[..i], now) + [K.CapabilityRow(id, cs[i], now)]
  {
  }

  lemma RecomputationMeans(env: Env, db: Db, subject: Str, now: Str)
    ensures var (db', r) := TrustStore.RecomputeSnapshot(env, db, subject, now);
            && (r.Ok? <==> EnsureSubject(db, subject).Ok?)
            && db' == db.(snapshots := if r.Ok? then db.snapshots[subject := r.value] else db.snapshots)
            && (r.Ok? ==> r.value.subjectId == subject)
  {
  }

  lemma ExportSigned(env: Env, db: Db, input: ExportInput, now: Str, receiptId: Str)
    ensures var (db', r) := TrustStore.ExportTrustBundle(env, db, input, now, receiptId);
            && db' == db.(snapshots := db'.snapshots, receipts := db'.receipts)
            && (r.Ok? ==>
                  VerifyReceipt(env, r.value) && receiptId in db'.receipts
                  && db'.receipts[receiptId].payloadHash == BundleHash(r.value))
  {
  }

  lemma ExportMeans(env: Env, db: Db, input: ExportInput, now: Str, receiptId: Str)
    requires T.Inv(env, db)
    ensures var (db', r) := TrustStore.ExportTrustBundle(env, db, input, now, receiptId);
            && T.Invariant(env)(db')
            && db' == db.(snapshots := db'.snapshots, receipts := db'.receipts)
            && P.BooksOnly(db.receipts, db'.receipts, if r.Ok? then Some(receiptId) else None)
            && (r.Ok? ==>
                  && VerifyReceipt(env, r.value) && db'.receipts[receiptId].payloadHash == BundleHash(r.value)
                  && E.Listed(r.value.evidence, input.subjectId) && r.value.snapshot.subjectId == input.subjectId)
  {
    T.ExportInv(env, db, input, now, receiptId);
    P.ExportBooks(env, db, input, now, receiptId);
    ExportSigned(env, db, input, now, receiptId);
    if P.ExportOf(env, db, input, now, receiptId).Ok? {
      P.ExportHolds(env, db, input, now, receiptId);
      P.ExportedIsListed(db, input);
    }
  }

  /** The trace of a completed resolution replays to it. */
  ghost predicate ReplaysTo(env: Env, db: Db, traceId: Str, row: ResolutionRow)
  {
    && row.resolutionId in db.resolutions && db.resolutions[row.resolutionId] == row
    && (T.RowsKeyed(env) && T.OneAt(row.policyVersion) ==> Replay(env, db, traceId) == Ok(Some(true)))
  }

  lemma ResolutionMeans(env: Env, db: Db, input: ResolveInput, now: Str, resolutionId: Str, traceId: Str,
                        result: (Db, Result<ResolutionRow>))
    requires T.Invariant(env)(db) && result == TrustStore.ResolveTrust(env, db, input, now, resolutionId, traceId)
    ensures T.Invariant(env)(result.0)
    ensures result.1.Ok? ==>
            result.1.value.resolutionId == resolutionId && ReplaysTo(env, result.0, traceId, result.1.value)
  {
    T.ResolveTrustInv(env, db, input, now, resolutionId, traceId);
    if result.1.Ok? {
      T.ResolvedReplays(env, db, input, now, resolutionId, traceId);
    }
  }

  /** An import completes just by storing its receipt under a new id, and reports how much the log grew. */
  ghost predicate Imports(db: Db, db': Db, r: Result<int>, receiptId: Str)
  {
    && P.BooksOnly(db.receipts, db'.receipts, if r.Ok? then Some(receiptId) else None)
    && (r.Ok? ==> r.value == |db'.evidence.rows| - |db.evidence.rows|)
  }

  lemma ImportMeans(env: Env, st: Store, b: Bundle, mirror: bool, now: Str, passportId: Str,
                    result: (Store, Result<int>))
    requires T.Invariant(env)(st.app) && result == TrustStore.ImportTrustBundle(env, st, b, mirror, now, passportId)
    ensures T.Invariant(env)(result.0.app)
    ensures Imports(st.app, result.0.app, result.1, b.receipt.receiptId)
  {
    T.ImportInv(env, st, b, mirror, now, passportId);
    P.ImportBooks(env, st, b, mirror, now, passportId);
    P.ImportedIsGrowth(env, st, b, mirror, now, passportId);
  }

  /** What the reply of a registration means for an import. */
  function Registered(reply: I.Reply<Error>): Result<()>
  {
    match reply
    case Response(_) => Ok(())
    case Conflict => Err(IdempotencyConflict)
    case Failure(e) => Err(e)
  }

  lemma RegisterSplit(st: Store, subject: Str, call: I.Call<Db, Error>, st1: Store, reply: I.Reply<Error>)
    requires FindPassport(st.app.passports, subject).None? && I.Step(st, call) == (st1, reply)
    ensures RegisterUnlessKnown(st, subject, call) == (st1, Registered(reply))
  {
  }

  /** An import whose receipt verifies, in two parts. */
  lemma VerifiedSplit(env: Env, st: Store, b: Bundle, mirror: bool, now: Str, passportId: Str, st1: Store,
                      passport: Result<()>)
    requires VerifyReceipt(env, b)
    requires RegisterUnlessKnown(st, b.subject.subjectId, ImportCall(env, b, now, passportId)) == (st1, passport)
    ensures TrustStore.ImportTrustBundle(env, st, b, mirror, now, passportId)
         == if passport.Err? then (st1, Err(passport.error))
            else
              var (db, result) := ImportContents(env, st1.app, b, mirror, now);
              (st1.(app := db), result)
  {
  }

  class TrustPlatform {
    const env: Env
    var app: Db
    var rows: map<Str, I.Row>

    /** The tables are in a state that every reachable one satisfies. */
    ghost predicate Valid()
      reads this`app
    {
      T.Invariant(env)(app)
    }

    constructor (env: Env)
      ensures Valid()
      ensures this.env == env && app == T.EMPTY && rows == map[]
    {
      this.env := env;
      app := T.EMPTY;
      rows := map[];
      T.EmptyInv(env);
    }

    /** persistEvidenceRecord: one row, then one row per validator. */
    method PersistEvidenceRecord(evidenceId: Str, hash: Digest, input: L.EvidenceInput, createdAt: Str)
      modifies this`app
      ensures app == old(app).(evidence := L.Persisted(old(app).evidence, evidenceId, hash, input, createdAt))
    {
      var t := app.evidence;
      app := app.(evidence := t.(rows := t.rows + [L.RowOf(evidenceId, hash, input, createdAt)]));
      var vs := input.validators;
      var i := 0;
      while i < |vs|
        invariant 0 <= i <= |vs|
        invariant app == old(app).(evidence := L.Tables(t.rows + [L.RowOf(evidenceId, hash, input, createdAt)],
                                                        t.validators + L.ValidatorRowsOf(evidenceId, vs[..i])))
      {
        ValidatorRowsExtend(evidenceId, vs, i);
        var more := app.evidence.validators + [L.ValidatorRowOf(evidenceId, vs[i])];
        app := app.(evidence := app.evidence.(validators := more));
        i := i + 1;
      }
      assert vs[..i] == vs;
    }

    /** The evidence loop of importTrustBundle, with its counter. */
    method ImportEvidence(evidence: seq<L.Evidence>) returns (imported: int)
      modifies this`app
      ensures app == old(app).(evidence := L.ImportAll(old(app).evidence, evidence))
      ensures imported == L.ImportCount(old(app).evidence, evidence)
    {
      imported := 0;
      var i := 0;
      while i < |evidence|
        invariant 0 <= i <= |evidence|
        invariant app == old(app).(evidence := L.ImportAll(old(app).evidence, evidence[..i]))
        invariant imported == L.ImportCount(old(app).evidence, evidence[..i])
      {
        ImportExtends(old(app).evidence, evidence, i);
        var e := evidence[i];
        var hash := L.Fingerprint(L.AsInput(e));
        if !L.HasId(app.evidence, e.evidenceId) && !L.HasHash(app.evidence, hash) {
          PersistEvidenceRecord(e.evidenceId, hash, L.AsInput(e), e.createdAt);
          imported := imported + 1;
        }
        i := i + 1;
      }
      assert evidence[..i] == evidence;
    }

    /** recomputeSnapshot */
    method RecomputeSnapshot(subject: Str, now: Str) returns (r: Result<SnapshotRow>)
      modifies this`app
      ensures (app, r) == TrustStore.RecomputeSnapshot(env, old(app), subject, now)
      ensures r.Ok? <==> EnsureSubject(old(app), subject).Ok?
      ensures r.Ok? ==> r.value.subjectId == subject
      ensures app == old(app).(snapshots :=
                                 if r.Ok? then old(app).snapshots[subject := r.value] else old(app).snapshots)
      ensures old(Valid()) ==> Valid()
    {
      RecomputationMeans(env, app, subject, now);
      if T.Invariant(env)(app) {
        T.RecomputeInv(env, app, subject, now);
      }
      var passport := EnsureSubject(app, subject);
      if passport.Err? {
        return Err(passport.error);
      }
      var row := env.snapshotOf(app, subject, now).(subjectId := subject);
      app := app.(snapshots := app.snapshots[subject := row]);
      return Ok(row);
    }

    /** getSnapshot(subject) ?? recomputeSnapshot(subject) */
    method SnapshotOrRecompute(subject: Str, now: Str) returns (r: Result<SnapshotRow>)
      modifies this`app
      ensures (app, r) == SnapshotFor(env, old(app), subject, now)
      ensures old(Valid()) ==> Valid()
    {
      if subject in app.snapshots {
        return Ok(app.snapshots[subject]);
      }
      r := RecomputeSnapshot(subject, now);
    }

    /** The handler of recordEvidence. */
    method HandleEvidence(input: L.EvidenceInput, createdAt: Str, now: Str, evidenceId: Str) returns (r: Result<Json>)
      requires Valid()
      modifies this`app
      ensures (if r.Ok? then I.Returned(app, r.value) else I.Threw(app, r.error))
           == TrustStore.RecordEvidence(env, old(app), input, createdAt, now, evidenceId)
      ensures Effects.EvidenceHandled(env, old(app), if r.Ok? then I.Returned(app, r.value) else I.Threw(app, r.error),
                                      input, createdAt, now, evidenceId)
    {
      Effects.EvidenceIsHandled(env, app, input, createdAt, now, evidenceId);
      r := EvidenceSteps(input, createdAt, now, evidenceId);
    }

    /** The steps of that handler. */
    method EvidenceSteps(input: L.EvidenceInput, createdAt: Str, now: Str, evidenceId: Str) returns (r: Result<Json>)
      modifies this`app
      ensures (if r.Ok? then I.Returned(app, r.value) else I.Threw(app, r.error))
           == TrustStore.RecordEvidence(env, old(app), input, createdAt, now, evidenceId)
    {
      if input.subjectId == [] || input.eventType !in env.eventTypes {
        return Err(InvalidRequest);
      }
      var passport := EnsureSubject(app, input.subjectId);
      if passport.Err? {
        return Err(passport.error);
      }
      var hash := L.Fingerprint(input);
      var existing := L.IdOfHash(app.evidence.rows, hash);
      if existing.Some? {
        return Ok(Json.Text(existing.value));
      }
      if L.HasId(app.evidence, evidenceId) {
        return Err(ConstraintFailed);
      }
      PersistEvidenceRecord(evidenceId, hash, input, createdAt);
      var snapshot := RecomputeSnapshot(input.subjectId, now);
      if snapshot.Err? {
        return Err(snapshot.error);
      }
      if input.eventType == env.revokeType {
        app := SetPassportStatus(app, input.subjectId, Revoked).0;
      }
      return Ok(Json.Text(evidenceId));
    }

    /** The lookup at the start of idempotent. */
    method Lookup(endpoint: Str, key: Option<Str>, requestHash: Digest) returns (reply: Option<I.Reply<Error>>)
      ensures reply.Some? <==> key.Some? && key.value != [] && key.value in rows
      ensures reply.Some? ==> var row := rows[key.value];
              reply.value == if row.endpoint == endpoint && row.requestHash == requestHash
                             then I.Response(I.StoredResponse(row))
                             else I.Conflict
    {
      if key == None || key.value == [] || key.value !in rows {
        return None;
      }
      var row := rows[key.value];
      if row.endpoint != endpoint || row.requestHash != requestHash {
        return Some(I.Conflict);
      }
      return Some(I.Response(I.StoredResponse(row)));
    }

    /** recordEvidence */
    method RecordEvidence(body: JsonValue, key: Option<Str>, stamp: Str, now: Str, evidenceId: Str)
      returns (reply: I.Reply<Error>)
      requires Valid()
      modifies this
      ensures Valid()
      ensures (I.Store(app, rows), reply)
              == I.Step(old(I.Store(app, rows)), EvidenceCall(env, body, key, stamp, now, evidenceId))
      ensures key.None? || key.value == [] || key.value !in old(rows) ==>
                Effects.EvidenceHandled(env, old(app), Effects.Ended(app, reply), env.evidenceOf(body),
                                        match env.createdAtOf(body) case Some(t) => t case None => stamp, now,
                                        evidenceId)
    {
      T.RecordInv(env, I.Store(app, rows), body, key, stamp, now, evidenceId);
      var requestHash := HashPayload(body);
      var known := Lookup(EVIDENCE_ENDPOINT, key, requestHash);
      if known.Some? {
        return known.value;
      }
      var r := HandleEvidence(env.evidenceOf(body), OrElse(env.createdAtOf(body), stamp), now, evidenceId);
      if r.Err? {
        return I.Failure(r.error);
      }
      if key.Some? && key.value != [] {
        rows := rows[key.value := I.Row(EVIDENCE_ENDPOINT, requestHash, Stringify(r.value))];
      }
      return I.Response(r.value);
    }

    /** The candidate loop of recommendValidators. */
    method FindCandidates(exclude: Str, candidates: seq<Str>, context: R.Context, policy: R.Policy, now: Str)
      returns (r: Result<seq<Recommendation>>)
      modifies this`app
      ensures (app, r) == Candidates(env, old(app), exclude, candidates, context, policy, now)
      ensures Effects.Considers(env, old(app), app, r, exclude, candidates, context, policy)
    {
      Effects.CandidatesConsidered(env, app, exclude, candidates, context, policy, now);
      r := CandidateSteps(exclude, candidates, context, policy, now);
    }

    /** The steps of that loop. */
    method CandidateSteps(exclude: Str, candidates: seq<Str>, context: R.Context, policy: R.Policy, now: Str)
      returns (r: Result<seq<Recommendation>>)
      modifies this`app
      ensures (app, r) == Candidates(env, old(app), exclude, candidates, context, policy, now)
    {
      var found: seq<Recommendation> := [];
      var i := 0;
      PrependStep([], [], Candidates(env, app, exclude, candidates[0..], context, policy, now));
      assert candidates[0..] == candidates;
      while i < |candidates|
        invariant 0 <= i <= |candidates|
        invariant Prepend(found, Candidates(env, app, exclude, candidates[i..], context, policy, now))
               == Candidates(env, old(app), exclude, candidates, context, policy, now)
      {
        var left := candidates[i..];
        assert left[1..] == candidates[i + 1..];
        if candidates[i] != exclude {
          CandidatesStep(env, app, exclude, left, context, policy, now);
          var snapshot := SnapshotOrRecompute(candidates[i], now);
          if snapshot.Err? {
            return Err(snapshot.error);
          }
          var next := Recommend(env, candidates[i], snapshot.value, context, policy);
          PrependStep(found, next, Candidates(env, app, exclude, left[1..], context, policy, now));
          found := found + next;
        }
        i := i + 1;
      }
      assert candidates[i..] == [] && found + [] == found;
      return Ok(found);
    }

    /** The inserts of resolveTrust, made one after the other. */
    method InsertResolution(row: ResolutionRow, trace: Trace) returns (r: Result<()>)
      modifies this`app
      ensures (app, r) == TrustStore.InsertResolution(old(app), row, trace)
    {
      if row.resolutionId in app.resolutions || exists id | id in app.resolutions ::
        app.resolutions[id].traceId == row.traceId {
        return Err(ConstraintFailed);
      }
      app := app.(resolutions := app.resolutions[row.resolutionId := row]);
      if HasTrace(app.traces, trace.traceId) {
        return Err(ConstraintFailed);
      }
      app := app.(traces := app.traces + [trace]);
      return Ok(());
    }

    /** The part of importTrustBundle after the passport. */
    method ImportRest(b: Bundle, mirror: bool, now: Str) returns (r: Result<int>)
      modifies this`app
      ensures (app, r) == ImportContents(env, old(app), b, mirror, now)
    {
      var imported := ImportEvidence(b.evidence);
      if b.subject.subjectId !in app.snapshots || mirror {
        app := app.(snapshots := app.snapshots[b.snapshot.subjectId := b.snapshot]);
      } else if imported > 0 {
        var snapshot := RecomputeSnapshot(b.subject.subjectId, now);
        if snapshot.Err? {
          return Err(snapshot.error);
        }
      }
      if b.receipt.receiptId in app.receipts {
        return Err(ConstraintFailed);
      }
      app := app.(receipts := app.receipts[b.receipt.receiptId :=
        ReceiptRow(b.subject.subjectId, Import, b.receipt.targetNetwork, BundleHash(b), b.receipt.signature)]);
      return Ok(imported);
    }

    /** The keys of a new passport, one after the other, until one violates the uniqueness of key ids. */
    method InsertKeys(passportId: Str, keys: seq<K.PublicKey>, now: Str) returns (complete: bool)
      modifies this`app
      ensures var n := K.Insertable(old(app).credentials.keys, passportId, keys);
              && (complete <==> n == |keys|)
              && app == old(app).(credentials := old(app).credentials.(keys :=
                          old(app).credentials.keys + K.KeyRows(passportId, keys[..n], now)))
    {
      var t := app.credentials;
      var i := 0;
      while i < |keys|
        invariant 0 <= i <= K.Insertable(t.keys, passportId, keys)
        invariant app == old(app).(credentials := t.(keys := t.keys + K.KeyRows(passportId, keys[..i], now)))
      {
        K.InsertableReaches(t.keys, passportId, keys, now, i);
        if K.HasKid(app.credentials.keys, passportId, keys[i].kid) {
          return false;
        }
        KeyRowsExtend(passportId, keys, i, now);
        var more := app.credentials.keys + [K.KeyRow(passportId, keys[i], now)];
        app := app.(credentials := app.credentials.(keys := more));
        i := i + 1;
      }
      return true;
    }

    method InsertCapabilities(passportId: Str, capabilities: seq<K.Capability>, now: Str)
      modifies this`app
      ensures app == old(app).(credentials := old(app).credentials.(capabilities :=
                       old(app).credentials.capabilities + K.CapabilityRows(passportId, capabilities, now)))
    {
      var t := app.credentials;
      for i := 0 to |capabilities|
        invariant app == old(app).(credentials := t.(capabilities :=
                           t.capabilities + K.CapabilityRows(passportId, capabilities[..i], now)))
      {
        CapabilityRowsExtend(passportId, capabilities, i, now);
        var more := app.credentials.capabilities + [K.CapabilityRow(passportId, capabilities[i], now)];
        app := app.(credentials := app.credentials.(capabilities := more));
      }
      assert capabilities[..|capabilities|] == capabilities;
    }

    /** The inserts beside a new passport. */
    method Enroll(passportId: Str, keys: seq<K.PublicKey>, capabilities: seq<K.Capability>, now: Str)
      returns (complete: bool)
      modifies this`app
      ensures var (credentials, all) := K.Enrolled(old(app).credentials, passportId, keys, capabilities, now);
              app == old(app).(credentials := credentials) && complete == all
    {
      complete := InsertKeys(passportId, keys, now);
      if complete {
        assert keys[..|keys|] == keys;
        InsertCapabilities(passportId, capabilities, now);
      }
    }

    /** rotatePassportKey */
    method RotatePassportKey(subject: Str, key: K.PublicKey, metadata: JsonValue, now: Str) returns (r: Result<()>)
      requires Valid()
      modifies this`app
      ensures Valid()
      ensures (app, r) == RotateKey(old(app), subject, key, metadata, now)
      ensures r.Ok? ==> var p := EnsureSubject(old(app), subject).value;
              K.KeysOf(app.credentials.keys, p.passportId) == K.KeysOf(old(app).credentials.keys, p.passportId) + [key]
      ensures Effects.Rotates(old(app), app, r, subject, key, metadata, now)
    {
      Effects.RotationMeans(app, subject, key, metadata, now);
      T.RotateKeyInv(env, app, subject, key, metadata, now);
      var passport := EnsureSubject(app, subject);
      if passport.Err? {
        return Err(passport.error);
      }
      var p := passport.value;
      if K.HasKid(app.credentials.keys, p.passportId, key.kid) {
        return Err(ConflictingEvidence);
      }
      ghost var before := app.credentials.keys;
      var keys := app.credentials.keys + [K.KeyRow(p.passportId, key, now)];
      assert keys[..|before|] == before;
      app := app.(credentials := app.credentials.(keys := keys));
      app := app.(passports := WithMetadata(app.passports, p.passportId, metadata));
      return Ok(());
    }

    /** The handler of createPassport. */
    method HandlePassport(input: PassportInput, now: Str, passportId: Str) returns (r: Result<Json>)
      requires Valid()
      modifies this`app
      ensures Registers(old(app), app, r.Ok?, input, NewPassport(input, now, passportId))
      ensures (if r.Ok? then I.Returned(app, r.value) else I.Threw(app, r.error))
              == TrustStore.CreatePassport(old(app), input, now, passportId)
      ensures Effects.RegistersOrRefuses(old(app), if r.Ok? then I.Returned(app, r.value) else I.Threw(app, r.error),
                                         input, now, passportId)
    {
      Effects.RegistrationRefuses(app, input, now, passportId);
      RegistrationMeans(app, input, now, passportId, TrustStore.CreatePassport(app, input, now, passportId));
      r := PassportSteps(input, now, passportId);
    }

    /** The steps of that handler. */
    method PassportSteps(input: PassportInput, now: Str, passportId: Str) returns (r: Result<Json>)
      modifies this`app
      ensures (if r.Ok? then I.Returned(app, r.value) else I.Threw(app, r.error))
              == TrustStore.CreatePassport(old(app), input, now, passportId)
    {
      if input.subjectId == [] || input.subjectType == Unlisted {
        return Err(InvalidRequest);
      }
      if input.did.Some? && input.did.value != [] && exists p | p in app.passports :: p.did == input.did {
        return Err(ConflictingEvidence);
      }
      var existing := FindPassport(app.passports, input.subjectId);
      if existing.Some? {
        return Err(ConflictingEvidence);
      }
      if exists p | p in app.passports :: p.passportId == passportId || (input.did.Some? && p.did == input.did) {
        return Err(ConstraintFailed);
      }
      app := app.(passports := app.passports + [NewPassport(input, now, passportId)]);
      var complete := Enroll(passportId, input.publicKeys, input.capabilities, now);
      if !complete {
        return Err(ConstraintFailed);
      }
      return Ok(Arr([Json.Text(passportId), Json.Text(input.subjectId)]));
    }

    /** createPassport */
    method CreatePassport(body: JsonValue, input: PassportInput, key: Option<Str>, now: Str, passportId: Str)
      returns (reply: I.Reply<Error>)
      requires Valid()
      modifies this
      ensures Valid()
      ensures (I.Store(app, rows), reply)
              == I.Step(old(I.Store(app, rows)), PassportCall(body, input, key, now, passportId))
      ensures key.None? || key.value == [] || key.value !in old(rows) ==>
                Effects.RegistersOrRefuses(old(app), Effects.Ended(app, reply), input, now, passportId)
    {
      T.CreatePassportInv(env, app, input, now, passportId);
      I.StepKeeps(T.Invariant(env), I.Store(app, rows), PassportCall(body, input, key, now, passportId));
      var requestHash := HashPayload(body);
      var known := Lookup(PASSPORTS_ENDPOINT, key, requestHash);
      if known.Some? {
        return known.value;
      }
      var r := HandlePassport(input, now, passportId);
      if r.Err? {
        return I.Failure(r.error);
      }
      if key.Some? && key.value != [] {
        rows := rows[key.value := I.Row(PASSPORTS_ENDPOINT, requestHash, Stringify(r.value))];
      }
      return I.Response(r.value);
    }

    /** The passport part of importTrustBundle. */
    method ImportPassport(b: Bundle, now: Str, passportId: Str) returns (r: Result<()>)
      requires Valid()
      modifies this
      ensures (I.Store(app, rows), r)
           == RegisterUnlessKnown(old(I.Store(app, rows)), b.subject.subjectId, ImportCall(env, b, now, passportId))
    {
      var passport := FindPassport(app.passports, b.subject.subjectId);
      if passport.Some? {
        return Ok(());
      }
      var reply := CreatePassport(env.importBody(b), ImportedPassport(b), Some(ImportKey(b)), now, passportId);
      RegisterSplit(old(I.Store(app, rows)), b.subject.subjectId, ImportCall(env, b, now, passportId),
                    I.Store(app, rows), reply);
      return Registered(reply);
    }

    /** importTrustBundle. What was written before an error stays. */
    method ImportTrustBundle(b: Bundle, mirror: bool, now: Str, passportId: Str) returns (r: Result<int>)
      requires Valid()
      modifies this
      ensures Valid()
      ensures (I.Store(app, rows), r)
              == TrustStore.ImportTrustBundle(env, old(I.Store(app, rows)), b, mirror, now, passportId)
      ensures Imports(old(app), app, r, b.receipt.receiptId)
      ensures Effects.TakesIn(env, old(I.Store(app, rows)), I.Store(app, rows), r, b, mirror, now, passportId)
    {
      Effects.ImportTakesIn(env, I.Store(app, rows), b, mirror, now, passportId);
      ImportMeans(env, I.Store(app, rows), b, mirror, now, passportId,
                  TrustStore.ImportTrustBundle(env, I.Store(app, rows), b, mirror, now, passportId));
      r := ImportSteps(b, mirror, now, passportId);
    }

    /** The steps of importTrustBundle. */
    method ImportSteps(b: Bundle, mirror: bool, now: Str, passportId: Str) returns (r: Result<int>)
      requires Valid()
      modifies this
      ensures (I.Store(app, rows), r)
              == TrustStore.ImportTrustBundle(env, old(I.Store(app, rows)), b, mirror, now, passportId)
    {
      if !VerifyReceipt(env, b) {
        return Err(InvalidRequest);
      }
      var passport := ImportPassport(b, now, passportId);
      ghost var st1 := I.Store(app, rows);
      VerifiedSplit(env, old(I.Store(app, rows)), b, mirror, now, passportId, st1, passport);
      if passport.Err? {
        return Err(passport.error);
      }
      r := ImportRest(b, mirror, now);
    }

    /** exportTrustBundle */
    method ExportTrustBundle(input: ExportInput, now: Str, receiptId: Str) returns (r: Result<Bundle>)
      requires Valid()
      modifies this`app
      ensures Valid()
      ensures (app, r) == TrustStore.ExportTrustBundle(env, old(app), input, now, receiptId)
      ensures app == old(app).(snapshots := app.snapshots, receipts := app.receipts)
      ensures P.BooksOnly(old(app).receipts, app.receipts, if r.Ok? then Some(receiptId) else None)
      ensures r.Ok? ==> VerifyReceipt(env, r.value) && app.receipts[receiptId].payloadHash == BundleHash(r.value)
      ensures r.Ok? ==> E.Listed(r.value.evidence, input.subjectId) && r.value.snapshot.subjectId == input.subjectId
      ensures Effects.Exports(env, old(app), app, r, input, now, receiptId)
    {
      ExportMeans(env, app, input, now, receiptId);
      Effects.ExportIsExported(env, app, input, now, receiptId);
      r := ExportSteps(input, now, receiptId);
    }

    /** The steps of exportTrustBundle. */
    method ExportSteps(input: ExportInput, now: Str, receiptId: Str) returns (r: Result<Bundle>)
      modifies this`app
      ensures (app, r) == TrustStore.ExportTrustBundle(env, old(app), input, now, receiptId)
    {
      var passport := EnsureSubject(app, input.subjectId);
      if passport.Err? {
        return Err(passport.error);
      }
      var snapshot := SnapshotOrRecompute(input.subjectId, now);
      if snapshot.Err? {
        return Err(snapshot.error);
      }
      var evidence := ExportedEvidence(app, input);
      var traceRefs := [];
      if input.includeTraceIds {
        traceRefs := Take(TraceIds(Ordering.Sort(NewerTrace(), TracesOf(app.traces, input.subjectId))), 20);
      }
      var target := OrElse(input.targetNetwork, env.environment);
      var subject := passport.value.subjectId;
      var hash := HashPayload(ReceiptPayload(subject, env.environment, target, snapshot.value.version, evidence,
                                             traceRefs));
      var signature := HmacSha256(env.signingKey, hash);
      if receiptId in app.receipts {
        return Err(ConstraintFailed);
      }
      app := app.(receipts := app.receipts[receiptId := ReceiptRow(subject, Export, target, hash, signature)]);
      return Ok(Bundle(env.environment, passport.value, K.KeysOf(app.credentials.keys, passport.value.passportId),
                       K.CapabilitiesOf(app.credentials.capabilities, passport.value.passportId), snapshot.value,
                       evidence, traceRefs, Receipt(receiptId, subject, env.environment, target, signature)));
    }

    /** resolveTrust */
    method ResolveTrust(input: ResolveInput, now: Str, resolutionId: Str, traceId: Str)
      returns (r: Result<ResolutionRow>)
      requires Valid()
      modifies this`app
      ensures Valid()
      ensures (app, r) == TrustStore.ResolveTrust(env, old(app), input, now, resolutionId, traceId)
      ensures r.Ok? ==> r.value.resolutionId == resolutionId && ReplaysTo(env, app, traceId, r.value)
      ensures Effects.Resolves(env, old(app), app, r, input, now, resolutionId, traceId)
    {
      Effects.ResolutionIsResolved(env, app, input, now, resolutionId, traceId);
      ResolutionMeans(env, app, input, now, resolutionId, traceId,
                      TrustStore.ResolveTrust(env, app, input, now, resolutionId, traceId));
      r := ResolutionSteps(input, now, resolutionId, traceId);
    }

    /** The steps of resolveTrust. */
    method ResolutionSteps(input: ResolveInput, now: Str, resolutionId: Str, traceId: Str)
      returns (r: Result<ResolutionRow>)
      modifies this`app
      ensures (app, r) == TrustStore.ResolveTrust(env, old(app), input, now, resolutionId, traceId)
    {
      var passport := EnsureSubject(app, input.subjectId);
      if passport.Err? {
        return Err(passport.error);
      }
      var policy := GetPolicy(env, OrElse(input.policyId, env.defaultPolicy.id),
                              OrElse(input.policyVersion, env.defaultPolicy.version));
      var snapshot := SnapshotOrRecompute(input.subjectId, now);
      if snapshot.Err? {
        return Err(snapshot.error);
      }
      var context := env.contextOf(input.context);
      var computed := R.ComputeResolution(snapshot.value.vector, snapshot.value.counts, context, policy, env.config);
      var candidates :=
        if input.candidates != [] then input.candidates else ActiveExcept(app.passports, input.subjectId);
      var found := FindCandidates(input.subjectId, candidates, context, policy, now);
      if found.Err? {
        return Err(found.error);
      }
      var sorted := Ordering.Sort(BetterFit(env.collate), found.value);
      var validators := if |sorted| <= 3 then sorted else sorted[..3];
      var resolution := ResolutionRow(resolutionId, input.subjectId, computed.score, computed.band, computed.decision,
                                      computed.confidence, traceId, PolicyVersion(policy), now);
      var trace := Trace(traceId, input.subjectId, Some(resolutionId), Some(snapshot.value), input.context,
                         PolicyVersion(policy), now);
      var inserted := InsertResolution(resolution, trace);
      if inserted.Err? {
        return Err(inserted.error);
      }
      if context.risk == R.High && computed.confidence < policy.minimumConfidenceHighRisk && validators == [] {
        return Err(LowConfidence);
      }
      return Ok(resolution);
    }

    /** The replay part of getTrace. */
    method GetTrace(traceId: Str) returns (r: Result<Option<bool>>)
      requires Valid()
      ensures r == Replay(env, app, traceId) && T.ReplayAgrees(env, app, traceId)
    {
      T.ReplayMatches(env, app, traceId);
      var trace := FindTrace(app.traces, traceId);
      if trace.None? {
        return Err(TraceUnavailable);
      }
      var passport := FindPassport(app.passports, trace.value.subjectId);
      var snapshot := trace.value.snapshot;
      if snapshot.None? && trace.value.subjectId in app.snapshots {
        snapshot := Some(app.snapshots[trace.value.subjectId]);
      }
      if trace.value.resolutionId.None? {
        return Ok(None);
      }
      var (id, version) := SplitVersion(trace.value.policyVersion);
      var policy := GetPolicy(env, id, OrElse(version, env.defaultPolicy.version));
      if passport.None? || snapshot.None? || trace.value.resolutionId.value !in app.resolutions {
        return Ok(None);
      }
      var resolution := app.resolutions[trace.value.resolutionId.value];
      var context := env.contextOf(trace.value.context);
      var again := R.ComputeResolution(snapshot.value.vector, snapshot.value.counts, context, policy, env.config);
      return Ok(Some(again.score == resolution.score && again.band == resolution.band
                     && again.decision == resolution.decision));
    }
  }
}
