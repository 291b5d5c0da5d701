/** Carrying a subject from one store to another: what an exported bundle is, and what importing it
    does to a store that knows nothing of it and to one that already has it. */
module Portability {
  import opened Utf16
  import opened CanonicalJson
  import opened JsonParser
  import opened CanonicalForm
  import opened TrustStore
  import T = TrustRuns
  import K = Credentials
  import L = EvidenceLog
  import E = EvidenceTransfer
  import I = Idempotency
  import R = Resolution
  import Ordering

  // ---------------------------------------------------------------- exporting

  function ExportOf(env: Env, db: Db, input: ExportInput, now: Str, receiptId: Str): Result<Bundle>
  {
    ExportTrustBundle(env, db, input, now, receiptId).1
  }

  /** Every exported bundle passes verification under the same key, wherever that happens. */
  lemma ExportVerifies(env: Env, db: Db, input: ExportInput, now: Str, receiptId: Str, env': Env)
    requires ExportOf(env, db, input, now, receiptId).Ok? && env'.signingKey == env.signingKey
    ensures VerifyReceipt(env', ExportOf(env, db, input, now, receiptId).value)
  {
  }

  // What a receipt covers.

  const PAYLOAD_KEYS: seq<Str> :=
    [L.SUBJECT_ID, SOURCE_ENVIRONMENT, TARGET_NETWORK, SNAPSHOT_VERSION, EVIDENCE_IDS, TRACE_REFS]

  lemma PayloadKeys()
    ensures Distinct(PAYLOAD_KEYS)
  {
    assert |L.SUBJECT_ID| == 10 && |SOURCE_ENVIRONMENT| == 18 && |TARGET_NETWORK| == 14;
    assert |SNAPSHOT_VERSION| == 16 && |EVIDENCE_IDS| == 12 && |TRACE_REFS| == 10;
    assert L.SUBJECT_ID[0] == 0x73 && TRACE_REFS[0] == 0x74;
  }

  lemma {:induction false} SameTexts(a: seq<Str>, b: seq<Str>)
    ensures |Texts(a)| == |a| && forall i | 0 <= i < |a| :: Texts(a)[i] == Json.Text(a[i])
    ensures Same(Arr(Texts(a)), Arr(Texts(b))) <==> a == b
    decreases |a| + |b|
  {
    TextsAt(a);
    TextsAt(b);
    if Same(Arr(Texts(a)), Arr(Texts(b))) {
      forall i | 0 <= i < |a| ensures a[i] == b[i] {
        assert Same(Texts(a)[i], Texts(b)[i]);
      }
    }
  }

  lemma {:induction false} TextsAt(a: seq<Str>)
    ensures |Texts(a)| == |a| && forall i | 0 <= i < |a| :: Texts(a)[i] == Json.Text(a[i])
  {
    if a != [] {
      TextsAt(a[1..]);
    }
  }

  function Ids(es: seq<L.Evidence>): seq<Str>
  {
    if es == [] then [] else [es[0].evidenceId] + Ids(es[1..])
  }

  lemma {:induction false} EvidenceIdsAreTexts(es: seq<L.Evidence>)
    ensures EvidenceIds(es) == Texts(Ids(es))
  {
    if es != [] {
      EvidenceIdsAreTexts(es[1..]);
      assert Ids(es)[1..] == Ids(es[1..]);
    }
  }

  lemma PayloadFieldsAre(p: seq<Field>, a: Json, b: Json, c: Json, d: Json, e: Json, f: Json)
    requires p == PayloadFields(a, b, c, d, e, f)
    ensures |p| == 6 && Keys(p) == PAYLOAD_KEYS
    ensures p[0].value == a && p[1].value == b && p[2].value == c && p[3].value == d && p[4].value == e
            && p[5].value == f
  {
  }

  lemma PayloadIs(p: seq<Field>, b: Bundle)
    requires Obj(p) == BundlePayload(b)
    ensures |p| == 6 && Keys(p) == PAYLOAD_KEYS
    ensures p[0].value == Json.Text(b.subject.subjectId) && p[1].value == Json.Text(b.sourceEnvironment)
    ensures p[2].value == Json.Text(b.receipt.targetNetwork) && p[3].value == Json.Num(WholeNumber(b.snapshot.version))
    ensures p[4].value == Arr(EvidenceIds(b.evidence)) && p[5].value == Arr(Texts(b.traceRefs))
  {
    PayloadFieldsAre(p, Json.Text(b.subject.subjectId), Json.Text(b.sourceEnvironment),
                     Json.Text(b.receipt.targetNetwork), Json.Num(WholeNumber(b.snapshot.version)),
                     Arr(EvidenceIds(b.evidence)), Arr(Texts(b.traceRefs)));
  }

  lemma PayloadProper(p: seq<Field>, b: Bundle)
    requires Obj(p) == BundlePayload(b)
    ensures Proper(Obj(p))
  {
    PayloadKeys();
    EvidenceIdsAreTexts(b.evidence);
    TextsAt(Ids(b.evidence));
    TextsAt(b.traceRefs);
    PayloadIs(p, b);
  }

  // Whole numbers print alike only when they are equal.

  lemma {:induction false} LeadingDigit(n: nat)
    requires n > 0
    ensures NatText(n)[0] != DIGIT_0
  {
    if n >= 10 {
      LeadingDigit(n / 10);
    }
  }

  lemma {:induction false} TrailingZeros(ds: Str)
    ensures forall i | |DropTrailingZeros(ds)| <= i < |ds| :: ds[i] == DIGIT_0
  {
    if ds != [] && ds[|ds| - 1] == DIGIT_0 {
      TrailingZeros(ds[..|ds| - 1]);
    }
  }

  lemma WholeNumberDigits(n: int)
    requires n != 0
    ensures var digits := NatText(if n < 0 then -n else n);
            WholeNumber(n) == Decimal(n < 0, DropTrailingZeros(digits), |digits|)
  {
    var digits := NatText(if n < 0 then -n else n);
    LeadingDigit(if n < 0 then -n else n);
    TrailingZeros(digits);
  }

  lemma SameDigits(ds: Str, ds': Str)
    requires |ds| == |ds'| && DropTrailingZeros(ds) == DropTrailingZeros(ds')
    ensures ds == ds'
  {
    TrailingZeros(ds);
    TrailingZeros(ds');
    var d := DropTrailingZeros(ds);
    forall i | 0 <= i < |ds| ensures ds[i] == ds'[i] {
      if i < |d| {
        assert ds[i] == d[i] == ds'[i];
      }
    }
  }

  lemma WholeNumberZero(n: int)
    ensures WholeNumber(n) == Zero <==> n == 0
  {
    if n != 0 {
      WholeNumberDigits(n);
    } else {
      assert NatText(0)[1..] == [];
    }
  }

  lemma WholeNumberInjective(m: int, n: int)
    ensures WholeNumber(m) == WholeNumber(n) <==> m == n
  {
    WholeNumberZero(m);
    WholeNumberZero(n);
    if m != 0 && n != 0 && WholeNumber(m) == WholeNumber(n) {
      var i: nat, j: nat := if m < 0 then -m else m, if n < 0 then -n else n;
      WholeNumberDigits(m);
      WholeNumberDigits(n);
      SameDigits(NatText(i), NatText(j));
      NatRoundTrip(i);
      NatRoundTrip(j);
    }
  }

  lemma SixAligned(p: seq<Field>, q: seq<Field>, same: (Json, Json) -> bool)
    requires |p| == |q| == 6
    ensures (forall i | 0 <= i < |p| :: same(p[i].value, q[i].value)) <==>
            && same(p[0].value, q[0].value) && same(p[1].value, q[1].value) && same(p[2].value, q[2].value)
            && same(p[3].value, q[3].value) && same(p[4].value, q[4].value) && same(p[5].value, q[5].value)
  {
  }

  lemma PayloadAligned(p: seq<Field>, q: seq<Field>)
    requires |p| == |q| && Keys(p) == Keys(q) == PAYLOAD_KEYS
    ensures Same(Obj(p), Obj(q)) <==> forall i | 0 <= i < |p| :: Equal()(p[i].value, q[i].value)
  {
    PayloadKeys();
    SameAligned(p, q);
  }

  lemma TextsEqual(a: Str, b: Str)
    ensures Equal()(Json.Text(a), Json.Text(b)) <==> a == b
  {
  }

  lemma VersionsEqual(m: int, n: int)
    ensures Equal()(Json.Num(WholeNumber(m)), Json.Num(WholeNumber(n))) <==> m == n
  {
    WholeNumberInjective(m, n);
  }

  lemma ListsEqual(a: Bundle, b: Bundle)
    ensures Equal()(Arr(EvidenceIds(a.evidence)), Arr(EvidenceIds(b.evidence))) <==> Ids(a.evidence) == Ids(b.evidence)
    ensures Equal()(Arr(Texts(a.traceRefs)), Arr(Texts(b.traceRefs))) <==> a.traceRefs == b.traceRefs
  {
    IdListsSame(a.evidence, b.evidence);
    SameTexts(a.traceRefs, b.traceRefs);
  }

  lemma PayloadsSame(p: seq<Field>, q: seq<Field>, a: Bundle, b: Bundle)
    requires Obj(p) == BundlePayload(a) && Obj(q) == BundlePayload(b)
    ensures Same(Obj(p), Obj(q)) <==> SameClaim(a, b)
  {
    TextsEqual(a.subject.subjectId, b.subject.subjectId);
    TextsEqual(a.sourceEnvironment, b.sourceEnvironment);
    TextsEqual(a.receipt.targetNetwork, b.receipt.targetNetwork);
    VersionsEqual(a.snapshot.version, b.snapshot.version);
    ListsEqual(a, b);
    PayloadIs(p, a);
    PayloadIs(q, b);
    PayloadAligned(p, q);
    SixAligned(p, q, Equal());
  }

  lemma IdListsSame(es: seq<L.Evidence>, es': seq<L.Evidence>)
    ensures Same(Arr(EvidenceIds(es)), Arr(EvidenceIds(es'))) <==> Ids(es) == Ids(es')
  {
    EvidenceIdsAreTexts(es);
    EvidenceIdsAreTexts(es');
    SameTexts(Ids(es), Ids(es'));
  }

  lemma HashesSame(p: Json, q: Json, same: bool)
    requires Proper(p) && Proper(q) && (Same(p, q) <==> same)
    ensures HashPayload(p) == HashPayload(q) <==> same
  {
    HashPayloadIdentifiesSame(p, q);
  }

  /** The bundles agree on subject, source and target, on the snapshot's version, on the evidence ids and
      on the trace ids. */
  predicate SameClaim(a: Bundle, b: Bundle)
  {
    && a.subject.subjectId == b.subject.subjectId && a.sourceEnvironment == b.sourceEnvironment
    && a.receipt.targetNetwork == b.receipt.targetNetwork && a.snapshot.version == b.snapshot.version
    && Ids(a.evidence) == Ids(b.evidence) && a.traceRefs == b.traceRefs
  }

  /** That is what a receipt covers: the payload hashes of two bundles are equal exactly when they agree so. */
  lemma ReceiptCovers(a: Bundle, b: Bundle)
    ensures BundleHash(a) == BundleHash(b) <==> SameClaim(a, b)
  {
    var p, q := BundlePayload(a), BundlePayload(b);
    PayloadProper(p.fields, a);
    PayloadProper(q.fields, b);
    PayloadsSame(p.fields, q.fields, a, b);
    HashesSame(p, q, SameClaim(a, b));
  }

  /** What an exported bundle holds. */
  lemma ExportHolds(env: Env, db: Db, input: ExportInput, now: Str, receiptId: Str)
    requires T.PassportsValid(db) && T.SnapshotsKeyed(db)
    requires ExportOf(env, db, input, now, receiptId).Ok?
    ensures var b := ExportOf(env, db, input, now, receiptId).value;
            && FindPassport(db.passports, input.subjectId) == Some(b.subject)
            && b.subject.subjectId == b.snapshot.subjectId == input.subjectId
            && b.subject.subjectId != [] && b.subject.subjectType != Unlisted
            && b.evidence == ExportedEvidence(db, input)
            && b.publicKeys == K.KeysOf(db.credentials.keys, b.subject.passportId)
            && b.capabilities == K.CapabilitiesOf(db.credentials.capabilities, b.subject.passportId)
  {
  }

  lemma TakeListed(hash: L.Evidence -> Digest, es: seq<L.Evidence>, subject: Str, n: int)
    requires E.ListedBy(hash, es, subject)
    ensures E.ListedBy(hash, Take(es, n), subject)
  {
    var k :| 0 <= k <= |es| && Take(es, n) == es[..k];
    E.ListedPrefix(hash, es, subject, k);
  }

  lemma ExportedIsListed(db: Db, input: ExportInput)
    requires L.IndexAgrees(db.evidence)
    ensures E.Listed(ExportedEvidence(db, input), input.subjectId)
  {
    if input.includeEvidence {
      E.ListIsListed(db.evidence, input.subjectId);
      var limit := match input.evidenceLimit case Some(n) => n case None => 25;
      TakeListed(E.ContentHash(), L.ListEvidence(db.evidence, input.subjectId), input.subjectId,
                 if limit < 1 then 1 else limit);
    }
  }

  // ---------------------------------------------------------------- importing where nothing is known

  /** No record of the bundle's subject, DID, evidence ids or receipt. */
  ghost predicate KnowsNothingOf(st: Store, b: Bundle)
  {
    && FindPassport(st.app.passports, b.subject.subjectId).None?
    && (b.subject.did.Some? ==> forall p | p in st.app.passports :: p.did != b.subject.did)
    && E.Unknown(st.app.evidence, b.evidence, b.subject.subjectId)
    && b.subject.subjectId !in st.app.snapshots
    && b.receipt.receiptId !in st.app.receipts
    && ImportKey(b) !in st.rows
  }

  predicate FreshPassportId(passports: seq<Passport>, id: Str)
  {
    forall p | p in passports :: p.passportId != id
  }

  lemma FindAppended(passports: seq<Passport>, p: Passport)
    requires FindPassport(passports, p.subjectId).None?
    ensures FindPassport(passports + [p], p.subjectId) == Some(p)
  {
    if passports != [] {
      assert (passports + [p])[1..] == passports[1..] + [p];
      FindAppended(passports[1..], p);
    }
  }

  lemma CreatesPassport(db: Db, input: PassportInput, now: Str, passportId: Str)
    requires input.subjectId != [] && input.subjectType != Unlisted
    requires FindPassport(db.passports, input.subjectId).None? && FreshPassportId(db.passports, passportId)
    requires input.did.Some? ==> forall p | p in db.passports :: p.did != input.did
    requires K.Unused(db.credentials, passportId) && K.DistinctKids(input.publicKeys)
    ensures CreatePassport(db, input, now, passportId).Returned?
    ensures CreatePassport(db, input, now, passportId).state
            == db.(passports := db.passports + [NewPassport(input, now, passportId)],
                   credentials := K.Enrolled(db.credentials, passportId, input.publicKeys, input.capabilities, now).0)
  {
    K.InsertableFresh(db.credentials, passportId, input.publicKeys);
  }

  lemma RegisterRuns(st: Store, subject: Str, call: I.Call<Db, Error>, key: Str)
    requires FindPassport(st.app.passports, subject).None? && call.key == Some(key) && key !in st.rows
    requires call.handler(st.app).Returned?
    ensures RegisterUnlessKnown(st, subject, call).0.app == call.handler(st.app).state
    ensures RegisterUnlessKnown(st, subject, call).1.Ok?
  {
  }

  lemma BesideFresh(env: Env, db: Db, evidence: L.Tables, imported: int, b: Bundle, mirror: bool, now: Str)
    requires b.subject.subjectId !in db.snapshots && b.receipt.receiptId !in db.receipts
    ensures var (db', r) := ImportBeside(env, db, evidence, imported, b, mirror, now);
            && r == Ok(imported)
            && db'.evidence == evidence && db'.passports == db.passports && db'.credentials == db.credentials
            && db'.snapshots == db.snapshots[b.snapshot.subjectId := b.snapshot]
  {
    var db1 := db.(evidence := evidence, snapshots := db.snapshots[b.snapshot.subjectId := b.snapshot]);
    TakesSnapshot(env, db.(evidence := evidence), b, mirror, imported, now);
    TakesReceipt(db1, b);
  }

  lemma TakesSnapshot(env: Env, db: Db, b: Bundle, mirror: bool, imported: int, now: Str)
    requires b.subject.subjectId !in db.snapshots
    ensures ImportSnapshot(env, db, b, mirror, imported, now)
            == (db.(snapshots := db.snapshots[b.snapshot.subjectId := b.snapshot]), Ok(()))
  {
  }

  lemma TakesReceipt(db: Db, b: Bundle)
    requires b.receipt.receiptId !in db.receipts
    ensures var (db', r) := ImportReceipt(db, b); r == Ok(()) && db' == db.(receipts := db'.receipts)
  {
  }

  /** The passport is the bundle's, active under its own id, and its metadata tell where it came from. */
  ghost predicate Resembles(b: Bundle, p: Passport)
  {
    && p.subjectId == b.subject.subjectId && p.subjectType == b.subject.subjectType && p.did == b.subject.did
    && p.issuerId == b.subject.issuerId && p.status == Active
    && p.metadata.Obj? && Has(p.metadata.fields, IMPORTED_FROM) && Has(p.metadata.fields, IMPORTED_RECEIPT)
    && Get(p.metadata.fields, IMPORTED_FROM) == Json.Text(b.sourceEnvironment)
    && Get(p.metadata.fields, IMPORTED_RECEIPT) == Json.Text(b.receipt.receiptId)
    && (b.subject.metadata.Obj? ==>
          forall k | Has(b.subject.metadata.fields, k) && k != IMPORTED_FROM && k != IMPORTED_RECEIPT ::
            Has(p.metadata.fields, k) && Get(p.metadata.fields, k) == Get(b.subject.metadata.fields, k))
  }

  lemma ImportedResembles(b: Bundle, now: Str, passportId: Str)
    ensures Resembles(b, NewPassport(ImportedPassport(b), now, passportId))
  {
  }

  /** Bundles with different receipts are registered under different keys. */
  lemma ImportKeysDiffer(a: Bundle, b: Bundle)
    ensures ImportKey(a) == ImportKey(b) <==> a.receipt.receiptId == b.receipt.receiptId
  {
    assert ImportKey(a)[|IMPORT_PASSPORT|..] == a.receipt.receiptId;
    assert ImportKey(b)[|IMPORT_PASSPORT|..] == b.receipt.receiptId;
  }

  /** What the target store holds after the bundle has been received. */
  ghost predicate Received(st: Store, b: Bundle, p: Passport, target: Db)
  {
    && L.ListEvidence(target.evidence, b.subject.subjectId) == b.evidence
    && target.snapshots == st.app.snapshots[b.snapshot.subjectId := b.snapshot]
    && FindPassport(target.passports, b.subject.subjectId) == Some(p) && Resembles(b, p)
    && K.KeysOf(target.credentials.keys, p.passportId) == b.publicKeys
    && K.CapabilitiesOf(target.credentials.capabilities, p.passportId) == b.capabilities
  }

  lemma ContentsFresh(env: Env, db: Db, b: Bundle, mirror: bool, now: Str)
    requires b.subject.subjectId !in db.snapshots && b.receipt.receiptId !in db.receipts
    requires L.IndexAgrees(db.evidence) && E.Listed(b.evidence, b.subject.subjectId)
    requires E.Unknown(db.evidence, b.evidence, b.subject.subjectId)
    ensures var (db', r) := ImportContents(env, db, b, mirror, now);
            && r == Ok(|b.evidence|) && db'.passports == db.passports && db'.credentials == db.credentials
            && L.ListEvidence(db'.evidence, b.subject.subjectId) == b.evidence
            && db'.snapshots == db.snapshots[b.snapshot.subjectId := b.snapshot]
  {
    E.ImportThenList(db.evidence, b.evidence, b.subject.subjectId);
    L.ImportCountIsGrowth(db.evidence, b.evidence);
    BesideFresh(env, db, L.ImportAll(db.evidence, b.evidence), |b.evidence|, b, mirror, now);
  }

  lemma VerifiedFresh(env: Env, st: Store, b: Bundle, mirror: bool, now: Str, call: I.Call<Db, Error>, key: Str,
                      p: Passport)
    requires KnowsNothingOf(st, b) && Resembles(b, p) && call.key == Some(key) && key !in st.rows
    requires call.handler(st.app).Returned? && call.handler(st.app).state
             == st.app.(passports := st.app.passports + [p], credentials := call.handler(st.app).state.credentials)
    requires K.KeysOf(call.handler(st.app).state.credentials.keys, p.passportId) == b.publicKeys
    requires K.CapabilitiesOf(call.handler(st.app).state.credentials.capabilities, p.passportId) == b.capabilities
    requires L.IndexAgrees(st.app.evidence) && E.Listed(b.evidence, b.subject.subjectId)
    ensures var (st', r) := ImportVerified(env, st, b, mirror, now, call);
            r == Ok(|b.evidence|) && Received(st, b, p, st'.app)
  {
    RegisterRuns(st, b.subject.subjectId, call, key);
    ContentsFresh(env, call.handler(st.app).state, b, mirror, now);
    FindAppended(st.app.passports, p);
  }

  lemma ImportRegisters(env: Env, db: Db, b: Bundle, now: Str, passportId: Str, p: Passport,
                        outcome: I.Outcome<Db, Error>)
    requires b.subject.subjectId != [] && b.subject.subjectType != Unlisted
    requires FindPassport(db.passports, b.subject.subjectId).None? && FreshPassportId(db.passports, passportId)
    requires b.subject.did.Some? ==> forall q | q in db.passports :: q.did != b.subject.did
    requires K.Unused(db.credentials, passportId) && K.DistinctKids(b.publicKeys)
    requires p == NewPassport(ImportedPassport(b), now, passportId)
    requires outcome == CreatePassport(db, ImportedPassport(b), now, passportId)
    ensures outcome.Returned?
    ensures outcome.state == db.(passports := db.passports + [p], credentials := outcome.state.credentials)
    ensures K.KeysOf(outcome.state.credentials.keys, p.passportId) == b.publicKeys
    ensures K.CapabilitiesOf(outcome.state.credentials.capabilities, p.passportId) == b.capabilities
  {
    CreatesPassport(db, ImportedPassport(b), now, passportId);
    K.EnrolledReadsBack(db.credentials, passportId, b.publicKeys, b.capabilities, now, passportId);
    K.InsertableFresh(db.credentials, passportId, b.publicKeys);
  }

  /** Importing a bundle whose evidence is a listing into a store that knows nothing of it. */
  lemma ImportFresh(env: Env, st: Store, b: Bundle, mirror: bool, now: Str, passportId: Str)
    requires VerifyReceipt(env, b) && KnowsNothingOf(st, b) && FreshPassportId(st.app.passports, passportId)
    requires L.IndexAgrees(st.app.evidence) && E.Listed(b.evidence, b.subject.subjectId)
    requires b.subject.subjectId != [] && b.subject.subjectType != Unlisted
    requires K.Unused(st.app.credentials, passportId) && K.DistinctKids(b.publicKeys)
    ensures var (st', r) := ImportTrustBundle(env, st, b, mirror, now, passportId);
            r == Ok(|b.evidence|) && Received(st, b, NewPassport(ImportedPassport(b), now, passportId), st'.app)
  {
    var p, call := NewPassport(ImportedPassport(b), now, passportId), ImportCall(env, b, now, passportId);
    ImportRegisters(env, st.app, b, now, passportId, p, call.handler(st.app));
    ImportedResembles(b, now, passportId);
    VerifiedFresh(env, st, b, mirror, now, call, ImportKey(b), p);
    var (st', r) := ImportTrustBundle(env, st, b, mirror, now, passportId);
    assert (st', r) == ImportVerified(env, st, b, mirror, now, call);
  }

  /** The portability round trip: an exported bundle verifies under the same key elsewhere, and
      importing it where nothing is known of it reports its evidence as imported, makes listEvidence
      return that evidence with equal content in the same order, stores the bundle's snapshot, and
      registers the subject with the bundle's keys and capabilities in the same order. */
  lemma PortabilityRoundTrip(env: Env, db: Db, input: ExportInput, now: Str, receiptId: Str,
                             env': Env, st: Store, mirror: bool, now': Str, passportId: Str)
    requires T.Inv(env, db) && ExportOf(env, db, input, now, receiptId).Ok?
    requires env'.signingKey == env.signingKey
    requires L.IndexAgrees(st.app.evidence) && FreshPassportId(st.app.passports, passportId)
    requires K.Unused(st.app.credentials, passportId)
    requires KnowsNothingOf(st, ExportOf(env, db, input, now, receiptId).value)
    ensures var b := ExportOf(env, db, input, now, receiptId).value;
            var (st', r) := ImportTrustBundle(env', st, b, mirror, now', passportId);
            && VerifyReceipt(env', b) && b.evidence == ExportedEvidence(db, input)
            && r == Ok(|b.evidence|)
            && Received(st, b, NewPassport(ImportedPassport(b), now', passportId), st'.app)
  {
    var b := ExportOf(env, db, input, now, receiptId).value;
    ExportVerifies(env, db, input, now, receiptId, env');
    ExportHolds(env, db, input, now, receiptId);
    ExportedIsListed(db, input);
    K.KeysOfDistinct(db.credentials.keys, b.subject.passportId);
    ImportFresh(env', st, b, mirror, now', passportId);
  }

  /** The round trip between any two reachable stores. */
  lemma PortabilityOverRuns(env: Env, ops: seq<T.Op>, input: ExportInput, now: Str, receiptId: Str,
                            env': Env, ops': seq<T.Op>, mirror: bool, now': Str, passportId: Str)
    requires var db := T.Run(env, I.Store(T.EMPTY, map[]), ops).app;
             ExportOf(env, db, input, now, receiptId).Ok? &&
             KnowsNothingOf(T.Run(env', I.Store(T.EMPTY, map[]), ops'), ExportOf(env, db, input, now, receiptId).value)
    requires FreshPassportId(T.Run(env', I.Store(T.EMPTY, map[]), ops').app.passports, passportId)
    requires env'.signingKey == env.signingKey
    ensures var db, st := T.Run(env, I.Store(T.EMPTY, map[]), ops).app, T.Run(env', I.Store(T.EMPTY, map[]), ops');
            var b := ExportOf(env, db, input, now, receiptId).value;
            var (st', r) := ImportTrustBundle(env', st, b, mirror, now', passportId);
            && VerifyReceipt(env', b) && b.evidence == ExportedEvidence(db, input)
            && r == Ok(|b.evidence|)
            && Received(st, b, NewPassport(ImportedPassport(b), now', passportId), st'.app)
  {
    T.RunInv(env, ops);
    T.RunInv(env', ops');
    var target := T.Run(env', I.Store(T.EMPTY, map[]), ops').app;
    T.FreshIsUnused(target.passports, target.credentials, passportId);
    PortabilityRoundTrip(env, T.Run(env, I.Store(T.EMPTY, map[]), ops).app, input, now, receiptId,
                         env', T.Run(env', I.Store(T.EMPTY, map[]), ops'), mirror, now', passportId);
  }

  // ---------------------------------------------------------------- importing where it is known

  lemma ReceiptTaken(db: Db, b: Bundle)
    requires b.receipt.receiptId in db.receipts
    ensures ImportReceipt(db, b) == (db, Err(ConstraintFailed))
  {
  }

  lemma BesideKnown(env: Env, db: Db, b: Bundle, mirror: bool, now: Str)
    requires b.receipt.receiptId in db.receipts && b.subject.subjectId in db.snapshots
    requires mirror ==> b.snapshot.subjectId in db.snapshots && db.snapshots[b.snapshot.subjectId] == b.snapshot
    ensures ImportBeside(env, db, db.evidence, 0, b, mirror, now) == (db, Err(ConstraintFailed))
  {
    assert mirror ==> db.snapshots[b.snapshot.subjectId := b.snapshot] == db.snapshots;
    ReceiptTaken(db, b);
  }

  lemma ListedIds(t: L.Tables, subject: Str, n: nat)
    requires L.IndexAgrees(t) && n <= |L.ListEvidence(t, subject)|
    ensures forall i | 0 <= i < n :: L.HasId(t, L.ListEvidence(t, subject)[i].evidenceId)
  {
    E.SelectedRowsListed(t, subject);
    var rows := Ordering.Sort(L.NewestFirst(), L.RowsFor(t.rows, subject));
    forall i | 0 <= i < n ensures L.HasId(t, L.ListEvidence(t, subject)[i].evidenceId) {
      assert rows[i] in t.rows;
    }
  }

  lemma ExportedIds(db: Db, input: ExportInput)
    requires L.IndexAgrees(db.evidence)
    ensures forall i | 0 <= i < |ExportedEvidence(db, input)| ::
              L.HasId(db.evidence, ExportedEvidence(db, input)[i].evidenceId)
  {
    if input.includeEvidence {
      ListedIds(db.evidence, input.subjectId, |ExportedEvidence(db, input)|);
    }
  }

  lemma ExportLeaves(env: Env, db: Db, input: ExportInput, now: Str, receiptId: Str)
    requires T.PassportsValid(db) && T.SnapshotsKeyed(db) && ExportOf(env, db, input, now, receiptId).Ok?
    ensures var (db', r) := ExportTrustBundle(env, db, input, now, receiptId);
            && db'.evidence == db.evidence && db'.passports == db.passports
            && r.value.receipt.receiptId in db'.receipts
            && input.subjectId in db'.snapshots && db'.snapshots[input.subjectId] == r.value.snapshot
  {
  }

  lemma ContentsKnown(env: Env, db: Db, b: Bundle, mirror: bool, now: Str)
    requires L.ImportAll(db.evidence, b.evidence) == db.evidence
    requires b.receipt.receiptId in db.receipts && b.subject.subjectId in db.snapshots
    requires mirror ==> b.snapshot.subjectId in db.snapshots && db.snapshots[b.snapshot.subjectId] == b.snapshot
    ensures ImportContents(env, db, b, mirror, now) == (db, Err(ConstraintFailed))
  {
    L.ImportCountIsGrowth(db.evidence, b.evidence);
    BesideKnown(env, db, b, mirror, now);
  }

  /** Importing a bundle into the store it was exported from fails at the receipt, in either mode, and
      changes nothing. */
  lemma ImportAtHomeFails(env: Env, db: Db, input: ExportInput, now: Str, receiptId: Str,
                          rows: map<Str, I.Row>, mirror: bool, now': Str, passportId: Str)
    requires T.Inv(env, db) && ExportOf(env, db, input, now, receiptId).Ok?
    ensures var b := ExportOf(env, db, input, now, receiptId).value;
            var st := I.Store(ExportTrustBundle(env, db, input, now, receiptId).0, rows);
            ImportTrustBundle(env, st, b, mirror, now', passportId) == (st, Err(ConstraintFailed))
  {
    var (db', r) := ExportTrustBundle(env, db, input, now, receiptId);
    ExportVerifies(env, db, input, now, receiptId, env);
    ExportHolds(env, db, input, now, receiptId);
    ExportLeaves(env, db, input, now, receiptId);
    ExportedIds(db, input);
    E.ImportKnown(db'.evidence, r.value.evidence);
    ContentsKnown(env, db', r.value, mirror, now');
  }

  // ---------------------------------------------------------------- importing twice

  lemma RegisterAgain(st: Store, subject: Str, call: I.Call<Db, Error>, call': I.Call<Db, Error>, db: Db)
    requires I.Keyed(call) && call.key == call'.key && call.endpoint == call'.endpoint && call.body == call'.body
    requires call.handler(st.app).Returned? ==> FindPassport(call.handler(st.app).state.passports, subject).Some?
    requires RegisterUnlessKnown(st, subject, call).1.Ok?
             && db.passports == RegisterUnlessKnown(st, subject, call).0.app.passports
    ensures var st' := I.Store(db, RegisterUnlessKnown(st, subject, call).0.rows);
            RegisterUnlessKnown(st', subject, call') == (st', Ok(()))
  {
  }

  lemma ContentsAgain(env: Env, db: Db, b: Bundle, mirror: bool, now: Str, now': Str)
    requires ImportContents(env, db, b, mirror, now).1.Ok?
    ensures var db' := ImportContents(env, db, b, mirror, now).0;
            ImportContents(env, db', b, mirror, now') == (db', Err(ConstraintFailed)) && db'.passports == db.passports
  {
    var t := L.ImportAll(db.evidence, b.evidence);
    E.ImportKnown(db.evidence, b.evidence);
    L.ImportCountIsGrowth(t, b.evidence);
    BesideAgain(env, db, t, L.ImportCount(db.evidence, b.evidence), b, mirror, now, now');
  }

  lemma BesideAgain(env: Env, db: Db, t: L.Tables, imported: int, b: Bundle, mirror: bool, now: Str, now': Str)
    requires ImportBeside(env, db, t, imported, b, mirror, now).1.Ok?
    ensures var (db', r) := ImportBeside(env, db, t, imported, b, mirror, now);
            && r == Ok(imported) && db'.evidence == t && db'.passports == db.passports
            && ImportBeside(env, db', t, 0, b, mirror, now') == (db', Err(ConstraintFailed))
  {
    var db1 := ImportSnapshot(env, db.(evidence := t), b, mirror, imported, now).0;
    SnapshotAgain(env, db.(evidence := t), b, mirror, imported, now, now');
    var db' := ImportReceipt(db1, b).0;
    SnapshotBesideReceipt(env, db1, db', b, mirror, now');
  }

  lemma SnapshotAgain(env: Env, db: Db, b: Bundle, mirror: bool, imported: int, now: Str, now': Str)
    requires ImportSnapshot(env, db, b, mirror, imported, now).1.Ok?
    ensures var db' := ImportSnapshot(env, db, b, mirror, imported, now).0;
            ImportSnapshot(env, db', b, mirror, 0, now') == (db', Ok(())) && db' == db.(snapshots := db'.snapshots)
  {
    var put := db.snapshots[b.snapshot.subjectId := b.snapshot];
    assert put[b.snapshot.subjectId := b.snapshot] == put;
  }

  lemma SnapshotBesideReceipt(env: Env, db: Db, db': Db, b: Bundle, mirror: bool, now: Str)
    requires ImportSnapshot(env, db, b, mirror, 0, now) == (db, Ok(())) && db' == db.(receipts := db'.receipts)
    ensures ImportSnapshot(env, db', b, mirror, 0, now) == (db', Ok(()))
  {
  }

  lemma VerifiedAgain(env: Env, st: Store, b: Bundle, mirror: bool, now: Str, call: I.Call<Db, Error>, now': Str,
                      call': I.Call<Db, Error>)
    requires I.Keyed(call) && call.key == call'.key && call.endpoint == call'.endpoint && call.body == call'.body
    requires call.handler(st.app).Returned? ==>
             FindPassport(call.handler(st.app).state.passports, b.subject.subjectId).Some?
    requires ImportVerified(env, st, b, mirror, now, call).1.Ok?
    ensures var st' := ImportVerified(env, st, b, mirror, now, call).0;
            ImportVerified(env, st', b, mirror, now', call') == (st', Err(ConstraintFailed))
  {
    var st1 := RegisterUnlessKnown(st, b.subject.subjectId, call).0;
    ContentsAgain(env, st1.app, b, mirror, now, now');
    RegisterAgain(st, b.subject.subjectId, call, call', ImportContents(env, st1.app, b, mirror, now).0);
  }

  lemma CreatedIsFound(db: Db, input: PassportInput, now: Str, passportId: Str)
    requires CreatePassport(db, input, now, passportId).Returned?
    ensures FindPassport(CreatePassport(db, input, now, passportId).state.passports, input.subjectId).Some?
  {
    FindAppended(db.passports, NewPassport(input, now, passportId));
  }

  /** A completed import, of any bundle into any store, cannot be repeated: the second one fails at the
      receipt and changes nothing. */
  lemma ImportTwiceFails(env: Env, st: Store, b: Bundle, mirror: bool, now: Str, passportId: Str, now': Str,
                         passportId': Str)
    requires ImportTrustBundle(env, st, b, mirror, now, passportId).1.Ok?
    ensures var st' := ImportTrustBundle(env, st, b, mirror, now, passportId).0;
            ImportTrustBundle(env, st', b, mirror, now', passportId') == (st', Err(ConstraintFailed))
  {
    if CreatePassport(st.app, ImportedPassport(b), now, passportId).Returned? {
      CreatedIsFound(st.app, ImportedPassport(b), now, passportId);
    }
    VerifiedAgain(env, st, b, mirror, now, ImportCall(env, b, now, passportId), now',
                  ImportCall(env, b, now', passportId'));
  }

  lemma CreateTouchesPassports(db: Db, input: PassportInput, now: Str, passportId: Str)
    ensures var db' := CreatePassport(db, input, now, passportId).state;
            db' == db.(passports := db'.passports, credentials := db'.credentials)
  {
  }

  /** What a completed import reports, the loop's counter, is how much the log grew. */
  lemma ImportedIsGrowth(env: Env, st: Store, b: Bundle, mirror: bool, now: Str, passportId: Str)
    ensures var (st', r) := ImportTrustBundle(env, st, b, mirror, now, passportId);
            r.Ok? ==> r.value == |st'.app.evidence.rows| - |st.app.evidence.rows|
  {
    CreateTouchesPassports(st.app, ImportedPassport(b), now, passportId);
    var call := ImportCall(env, b, now, passportId);
    VerifiedGrowth(env, st, b, mirror, now, call);
    var (st', r) := ImportTrustBundle(env, st, b, mirror, now, passportId);
    assert (st', r) == if VerifyReceipt(env, b) then ImportVerified(env, st, b, mirror, now, call)
           else (st, Err(InvalidRequest));
  }

  lemma VerifiedGrowth(env: Env, st: Store, b: Bundle, mirror: bool, now: Str, call: I.Call<Db, Error>)
    requires call.handler(st.app).state.evidence == st.app.evidence
    ensures var (st', r) := ImportVerified(env, st, b, mirror, now, call);
            r.Ok? ==> r.value == |st'.app.evidence.rows| - |st.app.evidence.rows|
  {
    var st1 := RegisterUnlessKnown(st, b.subject.subjectId, call).0;
    if ImportContents(env, st1.app, b, mirror, now).1.Ok? {
      var t := st1.app.evidence;
      L.ImportCountIsGrowth(t, b.evidence);
      BesideAgain(env, st1.app, L.ImportAll(t, b.evidence), L.ImportCount(t, b.evidence), b, mirror, now, now);
    }
  }

  // ---------------------------------------------------------------- receipts over whole runs

  /** The receipt id under which a step completes an export or an import. */
  function Booked(env: Env, st: Store, op: T.Op): Option<Str>
  {
    match op
    case ExportBundle(input, now, receiptId) =>
      if ExportOf(env, st.app, input, now, receiptId).Ok? then Some(receiptId) else None
    case ImportBundle(b, mirror, now, freshId) =>
      if ImportTrustBundle(env, st, b, mirror, now, freshId).1.Ok? then Some(b.receipt.receiptId) else None
    case _ => None
  }

  /** What a step does to the receipts: it adds the one it books, whose id must be new, and no other. */
  ghost predicate BooksOnly(before: map<Str, ReceiptRow>, after: map<Str, ReceiptRow>, booked: Option<Str>)
  {
    match booked
    case None => after == before
    case Some(id) => id !in before && id in after && after == before[id := after[id]]
  }

  ghost function ReceiptsAre(receipts: map<Str, ReceiptRow>): Db -> bool
  {
    (db: Db) => db.receipts == receipts
  }

  lemma {:induction false} CandidatesTouchSnapshots(env: Env, db: Db, exclude: Str, candidates: seq<Str>,
                                                    context: R.Context, policy: R.Policy, now: Str)
    ensures var db' := Candidates(env, db, exclude, candidates, context, policy, now).0;
            db' == db.(snapshots := db'.snapshots)
    decreases |candidates|
  {
    if candidates != [] {
      CandidatesTouchSnapshots(env, db, exclude, candidates[1..], context, policy, now);
      CandidatesTouchSnapshots(env, SnapshotFor(env, db, candidates[0], now).0, exclude, candidates[1..], context,
                               policy, now);
    }
  }

  lemma RecommendingTouchesSnapshots(env: Env, db: Db, input: ResolveInput, context: R.Context, policy: R.Policy,
                                     now: Str)
    ensures var db' := RecommendValidators(env, db, input, context, policy, now).0;
            db' == db.(snapshots := db'.snapshots)
  {
    var candidates := if input.candidates != [] then input.candidates else ActiveExcept(db.passports, input.subjectId);
    CandidatesTouchSnapshots(env, db, input.subjectId, candidates, context, policy, now);
  }

  /** What does not depend on snapshots, resolutions and traces outlasts resolveTrust. */
  lemma ResolveLeaves(inv: Db -> bool, env: Env, db: Db, input: ResolveInput, now: Str, resolutionId: Str, traceId: Str)
    requires inv(db)
    requires forall db': Db |
               db' == db.(snapshots := db'.snapshots, resolutions := db'.resolutions, traces := db'.traces) :: inv(db')
    ensures inv(ResolveTrust(env, db, input, now, resolutionId, traceId).0)
  {
    var policy := GetPolicy(env, OrElse(input.policyId, env.defaultPolicy.id),
                            OrElse(input.policyVersion, env.defaultPolicy.version));
    var db1 := SnapshotFor(env, db, input.subjectId, now).0;
    RecommendingTouchesSnapshots(env, db1, input, env.contextOf(input.context), policy, now);
    T.ResolveKeeps(inv, env, db, input, policy, now, resolutionId, traceId);
  }

  lemma RegisterLeavesReceipts(env: Env, st: Store, call: I.Call<Db, Error>)
    requires call.handler(st.app).state.receipts == st.app.receipts
    ensures ReceiptsAre(st.app.receipts)(I.Step(st, call).0.app)
  {
    I.StepKeeps(ReceiptsAre(st.app.receipts), st, call);
  }

  lemma RecordLeavesReceipts(env: Env, db: Db, input: L.EvidenceInput, createdAt: Str, now: Str, evidenceId: Str)
    ensures ReceiptsAre(db.receipts)(RecordEvidence(env, db, input, createdAt, now, evidenceId).state)
  {
    T.RecordKeeps(ReceiptsAre(db.receipts), env, db, input, createdAt, now, evidenceId,
                  T.Recorded(db, input, createdAt, evidenceId));
  }

  lemma RecordStepLeavesReceipts(env: Env, st: Store, body: JsonValue, key: Option<Str>, stamp: Str, now: Str,
                                 freshId: Str)
    ensures ReceiptsAre(st.app.receipts)(I.Step(st, EvidenceCall(env, body, key, stamp, now, freshId)).0.app)
  {
    RecordLeavesReceipts(env, st.app, env.evidenceOf(body), OrElse(env.createdAtOf(body), stamp), now, freshId);
    RegisterLeavesReceipts(env, st, EvidenceCall(env, body, key, stamp, now, freshId));
  }

  lemma BesideBooks(env: Env, db: Db, t: L.Tables, imported: int, b: Bundle, mirror: bool, now: Str)
    ensures var (db', r) := ImportBeside(env, db, t, imported, b, mirror, now);
            BooksOnly(db.receipts, db'.receipts, if r.Ok? then Some(b.receipt.receiptId) else None)
  {
  }

  lemma ContentsBook(env: Env, db: Db, b: Bundle, mirror: bool, now: Str)
    ensures var (db', r) := ImportContents(env, db, b, mirror, now);
            BooksOnly(db.receipts, db'.receipts, if r.Ok? then Some(b.receipt.receiptId) else None)
  {
    BesideBooks(env, db, L.ImportAll(db.evidence, b.evidence), L.ImportCount(db.evidence, b.evidence), b, mirror, now);
  }

  lemma VerifiedBooks(env: Env, st: Store, b: Bundle, mirror: bool, now: Str, call: I.Call<Db, Error>)
    requires call.handler(st.app).state.receipts == st.app.receipts
    ensures var (st', r) := ImportVerified(env, st, b, mirror, now, call);
            BooksOnly(st.app.receipts, st'.app.receipts, if r.Ok? then Some(b.receipt.receiptId) else None)
  {
    RegisterLeavesReceipts(env, st, call);
    ContentsBook(env, RegisterUnlessKnown(st, b.subject.subjectId, call).0.app, b, mirror, now);
  }

  /** Importing completes only under a receipt id that is not in the receipts yet, and puts it there. */
  lemma ImportBooks(env: Env, st: Store, b: Bundle, mirror: bool, now: Str, passportId: Str)
    ensures var (st', r) := ImportTrustBundle(env, st, b, mirror, now, passportId);
            BooksOnly(st.app.receipts, st'.app.receipts, if r.Ok? then Some(b.receipt.receiptId) else None)
  {
    CreateTouchesPassports(st.app, ImportedPassport(b), now, passportId);
    var call := ImportCall(env, b, now, passportId);
    VerifiedBooks(env, st, b, mirror, now, call);
    var (st', r) := ImportTrustBundle(env, st, b, mirror, now, passportId);
    assert (st', r) == if VerifyReceipt(env, b) then ImportVerified(env, st, b, mirror, now, call)
           else (st, Err(InvalidRequest));
  }

  lemma ExportIsBooked(db: Db, b: Bundle)
    ensures var (db', r) := BookExport(db, b);
            BooksOnly(db.receipts, db'.receipts, if r.Ok? then Some(b.receipt.receiptId) else None)
  {
  }

  lemma ExportBooks(env: Env, db: Db, input: ExportInput, now: Str, receiptId: Str)
    ensures var (db', r) := ExportTrustBundle(env, db, input, now, receiptId);
            BooksOnly(db.receipts, db'.receipts, if r.Ok? then Some(receiptId) else None)
  {
    var passport := EnsureSubject(db, input.subjectId);
    var (db1, row) := SnapshotFor(env, db, input.subjectId, now);
    if passport.Ok? && row.Ok? {
      ExportIsBooked(db1, BundleOf(env, db1, passport.value, row.value, input, receiptId));
    }
  }

  lemma OtherStepsBookNothing(env: Env, st: Store, op: T.Op)
    requires !op.ExportBundle? && !op.ImportBundle?
    ensures ReceiptsAre(st.app.receipts)(T.Apply(env, st, op).app)
  {
    match op
    case Register(body, key, now, freshId) =>
      CreateTouchesPassports(st.app, env.passportOf(body), now, freshId);
      RegisterLeavesReceipts(env, st, PassportCall(body, env.passportOf(body), key, now, freshId));
    case Record(body, key, stamp, now, freshId) => RecordStepLeavesReceipts(env, st, body, key, stamp, now, freshId);
    case Resolve(input, now, resolutionId, traceId) =>
      ResolveLeaves(ReceiptsAre(st.app.receipts), env, st.app, input, now, resolutionId, traceId);
    case _ =>
  }

  /** Every step of the platform adds exactly the receipt it books. */
  lemma StepBooks(env: Env, st: Store, op: T.Op)
    ensures BooksOnly(st.app.receipts, T.Apply(env, st, op).app.receipts, Booked(env, st, op))
  {
    if op.ExportBundle? {
      ExportBooks(env, st.app, op.selection, op.now, op.receiptId);
    } else if op.ImportBundle? {
      ImportBooks(env, st, op.bundle, op.mirror, op.now, op.freshId);
    } else {
      OtherStepsBookNothing(env, st, op);
    }
  }

  /** Receipts are never lost or changed. */
  lemma {:induction false} ReceiptStays(env: Env, st: Store, ops: seq<T.Op>, i: nat, id: Str)
    requires i <= |ops| && id in T.Run(env, st, ops[..i]).app.receipts
    ensures var before, after := T.Run(env, st, ops[..i]).app.receipts, T.Run(env, st, ops).app.receipts;
            id in after && after[id] == before[id]
    decreases |ops|
  {
    if i == |ops| {
      assert ops[..i] == ops;
    } else {
      var front := ops[..|ops| - 1];
      assert front[..i] == ops[..i];
      ReceiptStays(env, st, front, i, id);
      StepBooks(env, T.Run(env, st, front), ops[|ops| - 1]);
    }
  }

  /** In any run, from any store, a receipt id completes one export or import at most: a bundle is imported
      once into a store, and never into the store that exported it. */
  lemma BookedOnce(env: Env, st: Store, ops: seq<T.Op>, i: nat, j: nat, id: Str)
    requires i < j < |ops| && Booked(env, T.Run(env, st, ops[..i]), ops[i]) == Some(id)
    ensures Booked(env, T.Run(env, st, ops[..j]), ops[j]) != Some(id)
  {
    StepBooks(env, T.Run(env, st, ops[..i]), ops[i]);
    assert ops[..j][..i + 1] == ops[..i + 1] && ops[..i + 1][..i] == ops[..i];
    ReceiptStays(env, st, ops[..j], i + 1, id);
    StepBooks(env, T.Run(env, st, ops[..j]), ops[j]);
  }

  const START: Store := I.Store(T.EMPTY, map[])

  /** A step, after the steps before it, books the receipt id. */
  function Books(env: Env, id: Str): (seq<T.Op>, T.Op) -> bool
  {
    (before: seq<T.Op>, op: T.Op) => Booked(env, T.Run(env, START, before), op) == Some(id)
  }

  predicate Happens<A>(at: (seq<A>, A) -> bool, steps: seq<A>)
  {
    exists i | 0 <= i < |steps| :: at(steps[..i], steps[i])
  }

  lemma HappensBefore<A>(at: (seq<A>, A) -> bool, steps: seq<A>)
    requires steps != []
    ensures var n := |steps| - 1; Happens(at, steps) <==> Happens(at, steps[..n]) || at(steps[..n], steps[n])
  {
    var front := steps[..|steps| - 1];
    forall i | 0 <= i < |front| ensures at(front[..i], front[i]) == at(steps[..i], steps[i]) {
      assert front[..i] == steps[..i];
    }
  }

  /** The receipts of a reachable store are those of the exports and imports that completed on the way. */
  lemma {:induction false} ReceiptsAreBooked(env: Env, ops: seq<T.Op>, id: Str)
    ensures id in T.Run(env, START, ops).app.receipts <==> Happens(Books(env, id), ops)
  {
    if ops != [] {
      var front := ops[..|ops| - 1];
      ReceiptsAreBooked(env, front, id);
      StepBooks(env, T.Run(env, START, front), ops[|ops| - 1]);
      HappensBefore(Books(env, id), ops);
    }
  }
}
