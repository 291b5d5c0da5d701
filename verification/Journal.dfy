/** The events that announce what the platform stores, over whole runs: which tables the event log accounts
    for, where it falls short, and what a subscriber of the stream therefore learns. */
module Journal {
  import opened Utf16
  import opened CanonicalJson
  import opened JsonParser
  import opened TrustStore
  import T = TrustRuns
  import P = Portability
  import Platform
  import K = Credentials
  import L = EvidenceLog
  import I = Idempotency
  import R = Resolution
  import V = EventRail
  import C = SseCodec
  import D = EventDelivery

  // ---------------------------------------------------------------- what a step announces

  /** passport.created, the event of a recorded evidence, trust.resolved, trust.portability.exported and
      trust.portability.imported. */
  datatype Notice =
    | Created(subject: Str)
    | Recorded(evidenceId: Str)
    | Resolved(resolutionId: Str, traceId: Str)
    | Exported(receiptId: Str)
    | Imported(receiptId: Str, count: int)

  /** The handler is run rather than a stored response replayed. */
  predicate Runs(st: Store, call: I.Call<Db, Error>)
  {
    !(I.Keyed(call) && call.key.value in st.rows)
  }

  /** createPassport emits its event behind the last insert. */
  function CreatedBy(st: Store, call: I.Call<Db, Error>, subject: Str): seq<Notice>
  {
    if Runs(st, call) && call.handler(st.app).Returned? then [Created(subject)] else []
  }

  /** recordEvidence stores new evidence, and then emits its event. */
  predicate Stores(env: Env, db: Db, input: L.EvidenceInput, evidenceId: Str)
  {
    && input.subjectId != [] && input.eventType in env.eventTypes && EnsureSubject(db, input.subjectId).Ok?
    && L.IdOfHash(db.evidence.rows, L.Fingerprint(input)).None? && !L.HasId(db.evidence, evidenceId)
  }

  /** resolveTrust emits trust.resolved behind its two inserts, also when it then refuses the resolution for its
      low confidence. */
  predicate StoresResolution(result: Result<ResolutionRow>)
  {
    result.Ok? || result.error == LowConfidence
  }

  function RecordedBy(env: Env, st: Store, call: I.Call<Db, Error>, input: L.EvidenceInput, evidenceId: Str)
    : seq<Notice>
  {
    if Runs(st, call) && Stores(env, st.app, input, evidenceId) then [Recorded(evidenceId)] else []
  }

  function ResolvedBy(result: Result<ResolutionRow>, resolutionId: Str, traceId: Str): seq<Notice>
  {
    if StoresResolution(result) then [Resolved(resolutionId, traceId)] else []
  }

  function ExportedBy(result: Result<Bundle>, receiptId: Str): seq<Notice>
  {
    if result.Ok? then [Exported(receiptId)] else []
  }

  predicate Registers(env: Env, st: Store, b: Bundle)
  {
    VerifyReceipt(env, b) && FindPassport(st.app.passports, b.subject.subjectId).None?
  }

  function ImportCreates(env: Env, st: Store, b: Bundle, now: Str, freshId: Str): seq<Notice>
  {
    if Registers(env, st, b) then CreatedBy(st, ImportCall(env, b, now, freshId), b.subject.subjectId) else []
  }

  function ImportedBy(created: seq<Notice>, result: Result<int>, receiptId: Str): seq<Notice>
  {
    created + match result case Ok(n) => [Imported(receiptId, n)] case Err(_) => []
  }

  function Notices(env: Env, st: Store, op: T.Op): seq<Notice>
  {
    match op
    case Register(body, key, now, freshId) =>
      CreatedBy(st, PassportCall(body, env.passportOf(body), key, now, freshId), env.passportOf(body).subjectId)
    case Record(body, key, stamp, now, freshId) =>
      RecordedBy(env, st, EvidenceCall(env, body, key, stamp, now, freshId), env.evidenceOf(body), freshId)
    case Resolve(input, now, resolutionId, traceId) =>
      ResolvedBy(ResolveTrust(env, st.app, input, now, resolutionId, traceId).1, resolutionId, traceId)
    case ExportBundle(input, now, receiptId) => ExportedBy(P.ExportOf(env, st.app, input, now, receiptId), receiptId)
    case ImportBundle(b, mirror, now, freshId) =>
      ImportedBy(ImportCreates(env, st, b, now, freshId), ImportTrustBundle(env, st, b, mirror, now, freshId).1,
                 b.receipt.receiptId)
    case _ => []
  }

  /** Which notices a kind of step can bring. */
  ghost predicate Fitting(op: T.Op, notices: seq<Notice>)
  {
    forall n | n in notices ::
      && (n.Created? ==> op.Register? || op.ImportBundle?) && (n.Recorded? ==> op.Record?)
      && (n.Resolved? ==> op.Resolve?) && (n.Exported? ==> op.ExportBundle?) && (n.Imported? ==> op.ImportBundle?)
  }

  lemma ImportedFits(created: seq<Notice>, result: Result<int>, receiptId: Str)
    requires forall n | n in created :: n.Created?
    ensures forall n | n in ImportedBy(created, result, receiptId) :: n.Created? || n.Imported?
  {
  }

  lemma CreatedFits(st: Store, call: I.Call<Db, Error>, subject: Str)
    ensures forall n | n in CreatedBy(st, call, subject) :: n.Created?
  {
  }

  lemma NoticesFit(env: Env, st: Store, op: T.Op)
    ensures Fitting(op, Notices(env, st, op))
  {
    if op.ImportBundle? {
      ImportFits(env, st, op);
    } else if op.Register? {
      RegisterFits(env, st, op);
    }
  }

  lemma RegisterFits(env: Env, st: Store, op: T.Op)
    requires op.Register?
    ensures Fitting(op, Notices(env, st, op))
  {
    CreatedFits(st, PassportCall(op.body, env.passportOf(op.body), op.key, op.now, op.freshId),
                env.passportOf(op.body).subjectId);
  }

  lemma ImportCreatesFits(env: Env, st: Store, b: Bundle, now: Str, freshId: Str)
    ensures forall n | n in ImportCreates(env, st, b, now, freshId) :: n.Created?
  {
    CreatedFits(st, ImportCall(env, b, now, freshId), b.subject.subjectId);
  }

  lemma ImportFits(env: Env, st: Store, op: T.Op)
    requires op.ImportBundle?
    ensures Fitting(op, Notices(env, st, op))
  {
    ImportCreatesFits(env, st, op.bundle, op.now, op.freshId);
    ImportedFits(ImportCreates(env, st, op.bundle, op.now, op.freshId),
                 ImportTrustBundle(env, st, op.bundle, op.mirror, op.now, op.freshId).1, op.bundle.receipt.receiptId);
  }

  /** The notices of a run, in order. */
  function Journal(env: Env, ops: seq<T.Op>): seq<Notice>
  {
    if ops == [] then []
    else
      var front, last := ops[..|ops| - 1], ops[|ops| - 1];
      Journal(env, front) + Notices(env, T.Run(env, P.START, front), last)
  }

  function Project<A>(pick: Notice -> Option<A>, journal: seq<Notice>): (r: seq<A>)
    ensures |r| <= |journal|
  {
    if journal == [] then []
    else
      Project(pick, journal[..|journal| - 1])
      + match pick(journal[|journal| - 1]) case Some(a) => [a] case None => []
  }

  lemma {:induction false} ProjectConcat<A>(pick: Notice -> Option<A>, a: seq<Notice>, b: seq<Notice>)
    ensures Project(pick, a + b) == Project(pick, a) + Project(pick, b)
  {
    if b == [] {
      assert a + b == a;
    } else {
      assert (a + b)[..|a + b| - 1] == a + b[..|b| - 1];
      ProjectConcat(pick, a, b[..|b| - 1]);
    }
  }

  lemma ProjectOne<A>(pick: Notice -> Option<A>, n: Notice)
    ensures Project(pick, [n]) == match pick(n) case Some(a) => [a] case None => []
  {
    assert [n][..0] == [];
  }

  function PickResolved(n: Notice): Option<(Str, Str)>
  {
    match n case Resolved(r, t) => Some((r, t)) case _ => None
  }

  function PickReceipt(n: Notice): Option<Str>
  {
    match n case Exported(id) => Some(id) case Imported(id, _) => Some(id) case _ => None
  }

  function PickCreated(n: Notice): Option<Str>
  {
    match n case Created(s) => Some(s) case _ => None
  }

  function PickRecorded(n: Notice): Option<Str>
  {
    match n case Recorded(id) => Some(id) case _ => None
  }

  // ---------------------------------------------------------------- resolutions and their traces

  /** The resolutions that have a trace, in the order of their traces. */
  function Traced(traces: seq<Trace>): seq<(Str, Str)>
  {
    if traces == [] then []
    else
      var last := traces[|traces| - 1];
      Traced(traces[..|traces| - 1])
      + if last.resolutionId.Some? then [(last.resolutionId.value, last.traceId)] else []
  }

  lemma TracedAppended(traces: seq<Trace>, trace: Trace)
    ensures Traced(traces + [trace])
         == Traced(traces) + if trace.resolutionId.Some? then [(trace.resolutionId.value, trace.traceId)] else []
  {
    assert (traces + [trace])[..|traces|] == traces;
  }

  ghost function TracesAre(traces: seq<Trace>): Db -> bool
  {
    (db: Db) => db.traces == traces
  }

  lemma SnapshotForEnds(env: Env, db: Db, subject: Str, now: Str)
    ensures var (db', r) := SnapshotFor(env, db, subject, now);
            db'.traces == db.traces && (r.Err? ==> r.error != LowConfidence)
  {
  }

  lemma {:induction false} CandidatesFail(env: Env, db: Db, exclude: Str, candidates: seq<Str>,
                                          context: R.Context, policy: R.Policy, now: Str)
    ensures var r := Candidates(env, db, exclude, candidates, context, policy, now).1;
            r.Err? ==> r.error != LowConfidence
    decreases |candidates|
  {
    if candidates != [] {
      SnapshotForEnds(env, db, candidates[0], now);
      CandidatesFail(env, db, exclude, candidates[1..], context, policy, now);
      CandidatesFail(env, SnapshotFor(env, db, candidates[0], now).0, exclude, candidates[1..], context, policy, now);
    }
  }

  lemma RecommendingEnds(env: Env, db: Db, input: ResolveInput, context: R.Context, policy: R.Policy, now: Str)
    ensures RecommendValidators(env, db, input, context, policy, now).0.traces == db.traces
    ensures var r := RecommendValidators(env, db, input, context, policy, now).1;
            r.Err? ==> r.error != LowConfidence
  {
    var candidates := if input.candidates != [] then input.candidates else ActiveExcept(db.passports, input.subjectId);
    P.RecommendingTouchesSnapshots(env, db, input, context, policy, now);
    CandidatesFail(env, db, input.subjectId, candidates, context, policy, now);
  }

  /** What holds wherever resolveTrust can end holds of its result. */
  lemma ResolveEnds(holds: (Db, Result<ResolutionRow>) -> bool, env: Env, db: Db, input: ResolveInput, policy: R.Policy,
                    now: Str, resolutionId: Str, traceId: Str)
    requires policy == GetPolicy(env, OrElse(input.policyId, env.defaultPolicy.id),
                                 OrElse(input.policyVersion, env.defaultPolicy.version))
    requires EnsureSubject(db, input.subjectId).Err? ==> holds(db, Err(EnsureSubject(db, input.subjectId).error))
    requires var (db1, row) := SnapshotFor(env, db, input.subjectId, now);
             if row.Err? then holds(db1, Err(row.error))
             else
               var (db2, found) := RecommendValidators(env, db1, input, env.contextOf(input.context), policy, now);
               if found.Err? then holds(db2, Err(found.error))
               else
                 var computed := R.ComputeResolution(row.value.vector, row.value.counts, env.contextOf(input.context),
                                                     policy, env.config);
                 var resolution := T.ResolutionOf(resolutionId, input.subjectId, computed, traceId, policy, now);
                 var (db3, inserted) :=
                   InsertResolution(db2, resolution, T.TraceOf(traceId, input.subjectId, resolutionId, row.value,
                                                               input.context, policy, now));
                 if inserted.Err? then holds(db3, Err(inserted.error))
                 else holds(db3, Err(LowConfidence)) && holds(db3, Ok(resolution))
    ensures var (db', r) := ResolveTrust(env, db, input, now, resolutionId, traceId); holds(db', r)
  {
  }

  /** The traces tell whether the resolution is announced. */
  function Announces(traces: seq<Trace>, resolutionId: Str, traceId: Str): (Db, Result<ResolutionRow>) -> bool
  {
    (db: Db, r: Result<ResolutionRow>) =>
      Traced(db.traces) == Traced(traces) + if StoresResolution(r) then [(resolutionId, traceId)] else []
  }

  lemma InsertAnnounces(db: Db, row: ResolutionRow, trace: Trace)
    requires trace.resolutionId == Some(row.resolutionId)
    ensures var (db', r) := InsertResolution(db, row, trace);
            && (r.Err? ==> r.error == ConstraintFailed && db'.traces == db.traces)
            && (r.Ok? ==> Traced(db'.traces) == Traced(db.traces) + [(row.resolutionId, trace.traceId)])
  {
    TracedAppended(db.traces, trace);
  }

  lemma ResolveTracesBy(holds: (Db, Result<ResolutionRow>) -> bool, env: Env, db: Db, input: ResolveInput, now: Str,
                        resolutionId: Str, traceId: Str)
    requires forall db': Db, e: Error | db'.traces == db.traces && e != LowConfidence :: holds(db', Err(e))
    requires forall db': Db | Traced(db'.traces) == Traced(db.traces) + [(resolutionId, traceId)] ::
               holds(db', Err(LowConfidence)) && forall row :: holds(db', Ok(row))
    ensures var (db', r) := ResolveTrust(env, db, input, now, resolutionId, traceId); holds(db', r)
  {
    var policy := GetPolicy(env, OrElse(input.policyId, env.defaultPolicy.id),
                            OrElse(input.policyVersion, env.defaultPolicy.version));
    var (db1, row) := SnapshotFor(env, db, input.subjectId, now);
    var context := env.contextOf(input.context);
    SnapshotForEnds(env, db, input.subjectId, now);
    RecommendingEnds(env, db1, input, context, policy, now);
    if row.Ok? {
      var computed := R.ComputeResolution(row.value.vector, row.value.counts, context, policy, env.config);
      InsertAnnounces(RecommendValidators(env, db1, input, context, policy, now).0,
                      T.ResolutionOf(resolutionId, input.subjectId, computed, traceId, policy, now),
                      T.TraceOf(traceId, input.subjectId, resolutionId, row.value, input.context, policy, now));
    }
    ResolveEnds(holds, env, db, input, policy, now, resolutionId, traceId);
  }

  /** resolveTrust adds its trace exactly when it announces the resolution, and otherwise no trace. */
  lemma ResolveTraces(env: Env, db: Db, input: ResolveInput, now: Str, resolutionId: Str, traceId: Str)
    ensures var (db', r) := ResolveTrust(env, db, input, now, resolutionId, traceId);
            Announces(db.traces, resolutionId, traceId)(db', r)
  {
    ResolveTracesBy(Announces(db.traces, resolutionId, traceId), env, db, input, now, resolutionId, traceId);
  }

  lemma StepTracesCall(st: Store, call: I.Call<Db, Error>)
    requires call.handler(st.app).state.traces == st.app.traces
    ensures TracesAre(st.app.traces)(I.Step(st, call).0.app)
  {
    I.StepKeeps(TracesAre(st.app.traces), st, call);
  }

  lemma ImportLeavesTraces(env: Env, st: Store, b: Bundle, mirror: bool, now: Str, passportId: Str)
    ensures TracesAre(st.app.traces)(ImportTrustBundle(env, st, b, mirror, now, passportId).0.app)
  {
    var inv := TracesAre(st.app.traces);
    P.CreateTouchesPassports(st.app, ImportedPassport(b), now, passportId);
    forall db | inv(db) ensures inv(ImportContents(env, db, b, mirror, now).0) {
      T.ImportContentsKeeps(inv, env, db, b, mirror, now);
    }
    T.ImportVerifiedKeeps(inv, env, st, b, mirror, now, ImportCall(env, b, now, passportId));
  }

  lemma RecordLeavesTraces(env: Env, st: Store, body: JsonValue, key: Option<Str>, stamp: Str, now: Str, freshId: Str)
    ensures TracesAre(st.app.traces)(I.Step(st, EvidenceCall(env, body, key, stamp, now, freshId)).0.app)
  {
    var input, createdAt := env.evidenceOf(body), OrElse(env.createdAtOf(body), stamp);
    T.RecordKeeps(TracesAre(st.app.traces), env, st.app, input, createdAt, now, freshId,
                  T.Recorded(st.app, input, createdAt, freshId));
    StepTracesCall(st, EvidenceCall(env, body, key, stamp, now, freshId));
  }

  lemma RegisterLeavesTraces(st: Store, body: JsonValue, input: PassportInput, key: Option<Str>, now: Str, freshId: Str)
    ensures TracesAre(st.app.traces)(I.Step(st, PassportCall(body, input, key, now, freshId)).0.app)
  {
    P.CreateTouchesPassports(st.app, input, now, freshId);
    StepTracesCall(st, PassportCall(body, input, key, now, freshId));
  }

  lemma ExportLeavesTraces(env: Env, db: Db, input: ExportInput, now: Str, receiptId: Str)
    ensures TracesAre(db.traces)(ExportTrustBundle(env, db, input, now, receiptId).0)
  {
  }

  lemma OtherStepsLeaveTraces(env: Env, st: Store, op: T.Op)
    requires !op.Resolve? && !op.OtherTrace?
    ensures TracesAre(st.app.traces)(T.Apply(env, st, op).app)
  {
    match op
    case Register(body, key, now, freshId) => RegisterLeavesTraces(st, body, env.passportOf(body), key, now, freshId);
    case ExportBundle(input, now, receiptId) => ExportLeavesTraces(env, st.app, input, now, receiptId);
    case Record(body, key, stamp, now, freshId) => RecordLeavesTraces(env, st, body, key, stamp, now, freshId);
    case ImportBundle(b, mirror, now, freshId) => ImportLeavesTraces(env, st, b, mirror, now, freshId);
    case _ =>
  }

  /** Nothing is picked from notices of other kinds. */
  lemma {:induction false} ProjectNone<A>(pick: Notice -> Option<A>, journal: seq<Notice>)
    requires forall n | n in journal :: pick(n).None?
    ensures Project(pick, journal) == []
  {
    if journal != [] {
      ProjectNone(pick, journal[..|journal| - 1]);
    }
  }

  lemma StepTraces(env: Env, st: Store, op: T.Op)
    ensures Traced(T.Apply(env, st, op).app.traces)
         == Traced(st.app.traces) + Project(PickResolved, Notices(env, st, op))
  {
    if op.Resolve? {
      ResolveTraces(env, st.app, op.request, op.now, op.resolutionId, op.traceId);
      ProjectOne(PickResolved, Resolved(op.resolutionId, op.traceId));
    } else {
      UnresolvedStep(env, st, op, Notices(env, st, op));
    }
  }

  lemma UnresolvedStep(env: Env, st: Store, op: T.Op, notices: seq<Notice>)
    requires !op.Resolve? && notices == Notices(env, st, op)
    ensures Traced(T.Apply(env, st, op).app.traces) == Traced(st.app.traces) + Project(PickResolved, notices)
  {
    NoticesFit(env, st, op);
    ProjectNone(PickResolved, notices);
    if op.OtherTrace? {
      TracedAppended(st.app.traces, op.trace);
    } else {
      OtherStepsLeaveTraces(env, st, op);
    }
  }

  /** In every run the log announces exactly the resolutions that have a trace, in the traces' order. */
  lemma {:induction false} ResolutionsReported(env: Env, ops: seq<T.Op>)
    ensures Traced(T.Run(env, P.START, ops).app.traces) == Project(PickResolved, Journal(env, ops))
  {
    if ops != [] {
      var front, last := ops[..|ops| - 1], ops[|ops| - 1];
      ResolutionsReported(env, front);
      StepTraces(env, T.Run(env, P.START, front), last);
      ProjectConcat(PickResolved, Journal(env, front), Notices(env, T.Run(env, P.START, front), last));
    }
  }

  // ---------------------------------------------------------------- receipts

  lemma StepReceipts(env: Env, st: Store, op: T.Op)
    ensures Project(PickReceipt, Notices(env, st, op))
         == match P.Booked(env, st, op) case Some(id) => [id] case None => []
  {
    if op.ExportBundle? {
      ProjectOne(PickReceipt, Exported(op.receiptId));
    } else if op.ImportBundle? {
      ImportReceipts(env, st, op);
    } else {
      NoticesFit(env, st, op);
      ProjectNone(PickReceipt, Notices(env, st, op));
    }
  }

  lemma PickImported(created: seq<Notice>, result: Result<int>, receiptId: Str)
    requires forall n | n in created :: n.Created?
    ensures Project(PickReceipt, ImportedBy(created, result, receiptId)) == if result.Ok? then [receiptId] else []
    ensures Project(PickCreated, ImportedBy(created, result, receiptId)) == Project(PickCreated, created)
    ensures Counted(ImportedBy(created, result, receiptId)) == if result.Ok? then result.value else 0
  {
    ProjectNone(PickReceipt, created);
    CountedNone(created);
    if result.Ok? {
      var last := [Imported(receiptId, result.value)];
      ProjectConcat(PickReceipt, created, last);
      ProjectOne(PickReceipt, last[0]);
      ProjectConcat(PickCreated, created, last);
      ProjectOne(PickCreated, last[0]);
      assert (created + last)[..|created|] == created;
    } else {
      assert created + [] == created;
    }
  }

  /** The sum of the imported_evidence_counts that imports announce. */
  function Counted(journal: seq<Notice>): int
  {
    if journal == [] then 0
    else
      var last := journal[|journal| - 1];
      Counted(journal[..|journal| - 1]) + if last.Imported? then last.count else 0
  }

  lemma {:induction false} CountedNone(journal: seq<Notice>)
    requires forall n | n in journal :: !n.Imported?
    ensures Counted(journal) == 0
  {
    if journal != [] {
      CountedNone(journal[..|journal| - 1]);
    }
  }

  lemma {:induction false} CountedConcat(a: seq<Notice>, b: seq<Notice>)
    ensures Counted(a + b) == Counted(a) + Counted(b)
  {
    if b == [] {
      assert a + b == a;
    } else {
      assert (a + b)[..|a + b| - 1] == a + b[..|b| - 1];
      CountedConcat(a, b[..|b| - 1]);
    }
  }

  lemma ImportReceipts(env: Env, st: Store, op: T.Op)
    requires op.ImportBundle?
    ensures Project(PickReceipt, Notices(env, st, op))
         == match P.Booked(env, st, op) case Some(id) => [id] case None => []
  {
    ImportCreatesFits(env, st, op.bundle, op.now, op.freshId);
    PickImported(ImportCreates(env, st, op.bundle, op.now, op.freshId),
                 ImportTrustBundle(env, st, op.bundle, op.mirror, op.now, op.freshId).1, op.bundle.receipt.receiptId);
  }

  /** The ids are just those of the receipts, each once. */
  ghost predicate Lists(ids: seq<Str>, receipts: map<Str, ReceiptRow>)
  {
    (forall id :: id in receipts <==> id in ids) && forall i, j | 0 <= i < j < |ids| :: ids[i] != ids[j]
  }

  lemma ListsMore(ids: seq<Str>, before: map<Str, ReceiptRow>, after: map<Str, ReceiptRow>, booked: Option<Str>)
    requires Lists(ids, before) && P.BooksOnly(before, after, booked)
    ensures Lists(ids + (match booked case Some(id) => [id] case None => []), after)
  {
    if booked.None? {
      assert ids + [] == ids;
    }
  }

  /** In every run the log announces exactly the receipts that are stored, each once. */
  lemma {:induction false} ReceiptsReported(env: Env, ops: seq<T.Op>)
    ensures Lists(Project(PickReceipt, Journal(env, ops)), T.Run(env, P.START, ops).app.receipts)
  {
    if ops != [] {
      var front, last := ops[..|ops| - 1], ops[|ops| - 1];
      var st := T.Run(env, P.START, front);
      ReceiptsReported(env, front);
      StepReceipts(env, st, last);
      ProjectConcat(PickReceipt, Journal(env, front), Notices(env, st, last));
      P.StepBooks(env, st, last);
      ListsMore(Project(PickReceipt, Journal(env, front)), st.app.receipts, T.Apply(env, st, last).app.receipts,
                P.Booked(env, st, last));
    }
  }

  // ---------------------------------------------------------------- evidence

  /** The evidence rows that an import has written when it fails. No event announces them. */
  function Silent(env: Env, st: Store, op: T.Op): int
  {
    if op.ImportBundle? && ImportTrustBundle(env, st, op.bundle, op.mirror, op.now, op.freshId).1.Err?
    then |T.Apply(env, st, op).app.evidence.rows| - |st.app.evidence.rows|
    else 0
  }

  function SilentRows(env: Env, ops: seq<T.Op>): int
  {
    if ops == [] then 0
    else
      var front, last := ops[..|ops| - 1], ops[|ops| - 1];
      SilentRows(env, front) + Silent(env, T.Run(env, P.START, front), last)
  }

  ghost function EvidenceIs(t: L.Tables): Db -> bool
  {
    (db: Db) => db.evidence == t
  }

  lemma RecordRows(env: Env, db: Db, input: L.EvidenceInput, createdAt: Str, now: Str, evidenceId: Str)
    ensures |RecordEvidence(env, db, input, createdAt, now, evidenceId).state.evidence.rows|
         == |db.evidence.rows| + if Stores(env, db, input, evidenceId) then 1 else 0
  {
    if Stores(env, db, input, evidenceId) {
      RecordStores(env, db, input, createdAt, now, evidenceId);
    } else {
      RecordRefuses(env, db, input, createdAt, now, evidenceId);
    }
  }

  lemma RecordStores(env: Env, db: Db, input: L.EvidenceInput, createdAt: Str, now: Str, evidenceId: Str)
    requires Stores(env, db, input, evidenceId)
    ensures RecordEvidence(env, db, input, createdAt, now, evidenceId).state.evidence
         == L.Persisted(db.evidence, evidenceId, L.Fingerprint(input), input, createdAt)
  {
  }

  lemma RecordRefuses(env: Env, db: Db, input: L.EvidenceInput, createdAt: Str, now: Str, evidenceId: Str)
    requires !Stores(env, db, input, evidenceId)
    ensures RecordEvidence(env, db, input, createdAt, now, evidenceId).state == db
  {
  }

  lemma RecordStepRows(env: Env, st: Store, op: T.Op, notices: seq<Notice>)
    requires op.Record? && notices == Notices(env, st, op)
    ensures |T.Apply(env, st, op).app.evidence.rows| == |st.app.evidence.rows| + |Project(PickRecorded, notices)|
  {
    var input := env.evidenceOf(op.body);
    RecordRows(env, st.app, input, OrElse(env.createdAtOf(op.body), op.stamp), op.now, op.freshId);
    CallRows(st, EvidenceCall(env, op.body, op.key, op.stamp, op.now, op.freshId),
             Stores(env, st.app, input, op.freshId));
    ProjectOne(PickRecorded, Recorded(op.freshId));
  }

  lemma CallRows(st: Store, call: I.Call<Db, Error>, stores: bool)
    requires |call.handler(st.app).state.evidence.rows| == |st.app.evidence.rows| + if stores then 1 else 0
    ensures |I.Step(st, call).0.app.evidence.rows|
         == |st.app.evidence.rows| + if Runs(st, call) && stores then 1 else 0
  {
  }

  lemma OtherStepsLeaveEvidence(env: Env, st: Store, op: T.Op)
    requires !op.Record? && !op.ImportBundle?
    ensures EvidenceIs(st.app.evidence)(T.Apply(env, st, op).app)
  {
    var inv := EvidenceIs(st.app.evidence);
    match op
    case Register(body, key, now, freshId) =>
      P.CreateTouchesPassports(st.app, env.passportOf(body), now, freshId);
      I.StepKeeps(inv, st, PassportCall(body, env.passportOf(body), key, now, freshId));
    case Resolve(input, now, resolutionId, traceId) =>
      P.ResolveLeaves(inv, env, st.app, input, now, resolutionId, traceId);
    case _ =>
  }

  lemma ImportStepRows(env: Env, st: Store, op: T.Op)
    requires op.ImportBundle?
    ensures |T.Apply(env, st, op).app.evidence.rows|
         == |st.app.evidence.rows| + Counted(Notices(env, st, op)) + Silent(env, st, op)
  {
    P.ImportedIsGrowth(env, st, op.bundle, op.mirror, op.now, op.freshId);
    ImportCreatesFits(env, st, op.bundle, op.now, op.freshId);
    PickImported(ImportCreates(env, st, op.bundle, op.now, op.freshId),
                 ImportTrustBundle(env, st, op.bundle, op.mirror, op.now, op.freshId).1, op.bundle.receipt.receiptId);
  }

  lemma NoneRecorded(env: Env, st: Store, op: T.Op, notices: seq<Notice>)
    requires notices == Notices(env, st, op)
    ensures !op.Record? ==> Project(PickRecorded, notices) == []
    ensures !op.ImportBundle? ==> Counted(notices) == 0
  {
    NoticesFit(env, st, op);
    if !op.Record? {
      ProjectNone(PickRecorded, notices);
    }
    if !op.ImportBundle? {
      CountedNone(notices);
    }
  }

  lemma StepRows(env: Env, st: Store, op: T.Op)
    ensures var notices := Notices(env, st, op);
            |T.Apply(env, st, op).app.evidence.rows|
            == |st.app.evidence.rows| + |Project(PickRecorded, notices)| + Counted(notices) + Silent(env, st, op)
  {
    NoneRecorded(env, st, op, Notices(env, st, op));
    if op.Record? {
      RecordStepRows(env, st, op, Notices(env, st, op));
    } else if op.ImportBundle? {
      ImportStepRows(env, st, op);
    } else {
      OtherStepsLeaveEvidence(env, st, op);
    }
  }

  /** In every run, the stored evidence is what the log announces as recorded, plus what it announces as
      imported, plus what failed imports left unannounced. */
  lemma {:induction false} EvidenceReported(env: Env, ops: seq<T.Op>)
    ensures |T.Run(env, P.START, ops).app.evidence.rows|
         == |Project(PickRecorded, Journal(env, ops))| + Counted(Journal(env, ops)) + SilentRows(env, ops)
  {
    if ops != [] {
      var front, last := ops[..|ops| - 1], ops[|ops| - 1];
      var st := T.Run(env, P.START, front);
      EvidenceReported(env, front);
      StepRows(env, st, last);
      ProjectConcat(PickRecorded, Journal(env, front), Notices(env, st, last));
      CountedConcat(Journal(env, front), Notices(env, st, last));
    }
  }

  // ---------------------------------------------------------------- passports

  function Subjects(passports: seq<Passport>): (r: seq<Str>)
    ensures |r| == |passports| && forall i | 0 <= i < |r| :: r[i] == passports[i].subjectId
  {
    seq(|passports|, i requires 0 <= i < |passports| => passports[i].subjectId)
  }

  /** The subject that a registration leaves behind unannounced, because a key id is repeated. */
  ghost function LeftBehind(st: Store, call: I.Call<Db, Error>, input: PassportInput, passportId: Str): seq<Str>
  {
    if Runs(st, call) && Behind(st.app.passports, input, passportId) then [input.subjectId] else []
  }

  ghost function Unannounced(env: Env, st: Store, op: T.Op): seq<Str>
  {
    match op
    case Register(body, key, now, freshId) =>
      LeftBehind(st, PassportCall(body, env.passportOf(body), key, now, freshId), env.passportOf(body), freshId)
    case ImportBundle(b, mirror, now, freshId) =>
      ImportLeaves(env, st, b, now, freshId)
    case _ => []
  }

  ghost function ImportLeaves(env: Env, st: Store, b: Bundle, now: Str, freshId: Str): seq<Str>
  {
    if Registers(env, st, b) then LeftBehind(st, ImportCall(env, b, now, freshId), ImportedPassport(b), freshId) else []
  }

  ghost function AllUnannounced(env: Env, ops: seq<T.Op>): seq<Str>
  {
    if ops == [] then []
    else
      var front, last := ops[..|ops| - 1], ops[|ops| - 1];
      AllUnannounced(env, front) + Unannounced(env, T.Run(env, P.START, front), last)
  }

  /** The subjects grow by the one announced or the one left behind. */
  ghost predicate Grows(before: seq<Passport>, after: seq<Passport>, created: seq<Notice>, left: seq<Str>)
  {
    Subjects(after) == Subjects(before) + (Project(PickCreated, created) + left)
  }

  lemma CallGrows(st: Store, body: JsonValue, input: PassportInput, key: Option<Str>, now: Str, passportId: Str,
                  call: I.Call<Db, Error>)
    requires T.CredentialsValid(st.app.passports, st.app.credentials)
    requires call == PassportCall(body, input, key, now, passportId)
    ensures Grows(st.app.passports, I.Step(st, call).0.app.passports, CreatedBy(st, call, input.subjectId),
                  LeftBehind(st, call, input, passportId))
  {
    OutcomeSubjects(st.app, input, now, passportId, call.handler(st.app));
    StepGrows(st, call, input.subjectId, Behind(st.app.passports, input, passportId));
  }

  /** A registration that fails and still leaves its subject. */
  ghost predicate Behind(passports: seq<Passport>, input: PassportInput, passportId: Str)
  {
    Platform.Admissible(passports, input, passportId) && !K.DistinctKids(input.publicKeys)
  }

  lemma OutcomeSubjects(db: Db, input: PassportInput, now: Str, passportId: Str, outcome: I.Outcome<Db, Error>)
    requires T.CredentialsValid(db.passports, db.credentials)
    requires outcome == CreatePassport(db, input, now, passportId)
    ensures outcome.Returned? ==> !Behind(db.passports, input, passportId)
    ensures Subjects(outcome.state.passports)
         == Subjects(db.passports)
            + if outcome.Returned? || Behind(db.passports, input, passportId) then [input.subjectId] else []
  {
    Platform.RegistrationMeans(db, input, now, passportId, outcome);
  }

  lemma StepGrows(st: Store, call: I.Call<Db, Error>, subject: Str, behind: bool)
    requires call.handler(st.app).Returned? ==> !behind
    requires Subjects(call.handler(st.app).state.passports)
          == Subjects(st.app.passports) + if call.handler(st.app).Returned? || behind then [subject] else []
    ensures Grows(st.app.passports, I.Step(st, call).0.app.passports, CreatedBy(st, call, subject),
                  if Runs(st, call) && behind then [subject] else [])
  {
    ProjectOne(PickCreated, Created(subject));
    assert Subjects(st.app.passports) + ([] + []) == Subjects(st.app.passports);
    assert [] + [subject] == [subject] + [] == [subject];
  }

  ghost function SubjectsAre(subjects: seq<Str>): Db -> bool
  {
    (db: Db) => Subjects(db.passports) == subjects
  }

  lemma RecordLeavesSubjects(env: Env, db: Db, input: L.EvidenceInput, createdAt: Str, now: Str, evidenceId: Str)
    ensures SubjectsAre(Subjects(db.passports))(RecordEvidence(env, db, input, createdAt, now, evidenceId).state)
  {
    T.RecordKeeps(SubjectsAre(Subjects(db.passports)), env, db, input, createdAt, now, evidenceId,
                  T.Recorded(db, input, createdAt, evidenceId));
  }

  lemma RecordStepLeavesSubjects(env: Env, st: Store, body: JsonValue, key: Option<Str>, stamp: Str, now: Str,
                                 freshId: Str)
    ensures SubjectsAre(Subjects(st.app.passports))(I.Step(st, EvidenceCall(env, body, key, stamp, now, freshId)).0.app)
  {
    RecordLeavesSubjects(env, st.app, env.evidenceOf(body), OrElse(env.createdAtOf(body), stamp), now, freshId);
    I.StepKeeps(SubjectsAre(Subjects(st.app.passports)), st, EvidenceCall(env, body, key, stamp, now, freshId));
  }

  lemma StatusLeavesSubjects(db: Db, subject: Str, status: Status)
    ensures SubjectsAre(Subjects(db.passports))(SetPassportStatus(db, subject, status).0)
  {
  }

  lemma RotationLeavesSubjects(db: Db, subject: Str, key: K.PublicKey, metadata: JsonValue, now: Str)
    ensures SubjectsAre(Subjects(db.passports))(RotateKey(db, subject, key, metadata, now).0)
  {
    if EnsureSubject(db, subject).Ok? {
      var p := EnsureSubject(db, subject).value;
      assert Subjects(WithMetadata(db.passports, p.passportId, metadata)) == Subjects(db.passports);
    }
  }

  lemma OtherStepsLeaveSubjects(env: Env, st: Store, op: T.Op)
    requires !op.Register? && !op.ImportBundle?
    ensures SubjectsAre(Subjects(st.app.passports))(T.Apply(env, st, op).app)
  {
    var inv := SubjectsAre(Subjects(st.app.passports));
    match op
    case ChangeStatus(subject, status) => StatusLeavesSubjects(st.app, subject, status);
    case Rotate(subject, key, metadata, now) => RotationLeavesSubjects(st.app, subject, key, metadata, now);
    case Record(body, key, stamp, now, freshId) => RecordStepLeavesSubjects(env, st, body, key, stamp, now, freshId);
    case Resolve(input, now, resolutionId, traceId) =>
      P.ResolveLeaves(inv, env, st.app, input, now, resolutionId, traceId);
    case _ =>
  }

  ghost function PassportsAre(passports: seq<Passport>): Db -> bool
  {
    (db: Db) => db.passports == passports
  }

  lemma ImportGrows(env: Env, st: Store, b: Bundle, mirror: bool, now: Str, freshId: Str)
    requires T.CredentialsValid(st.app.passports, st.app.credentials)
    ensures Grows(st.app.passports, ImportTrustBundle(env, st, b, mirror, now, freshId).0.app.passports,
                  ImportCreates(env, st, b, now, freshId), ImportLeaves(env, st, b, now, freshId))
  {
    var call := ImportCall(env, b, now, freshId);
    CallGrows(st, env.importBody(b), ImportedPassport(b), Some(ImportKey(b)), now, freshId, call);
    ImportPassports(env, st, b, mirror, now, freshId, call);
    NothingGrows(st.app.passports);
  }

  lemma ImportPassports(env: Env, st: Store, b: Bundle, mirror: bool, now: Str, freshId: Str, call: I.Call<Db, Error>)
    requires call == ImportCall(env, b, now, freshId)
    ensures ImportTrustBundle(env, st, b, mirror, now, freshId).0.app.passports
         == if Registers(env, st, b) then I.Step(st, call).0.app.passports else st.app.passports
  {
    VerifiedSubjects(env, st, b, mirror, now, call);
    var (st', r) := ImportTrustBundle(env, st, b, mirror, now, freshId);
    assert (st', r) == if VerifyReceipt(env, b) then ImportVerified(env, st, b, mirror, now, call)
           else (st, Err(InvalidRequest));
  }

  lemma NothingGrows(passports: seq<Passport>)
    ensures Grows(passports, passports, [], [])
  {
    assert Subjects(passports) + ([] + []) == Subjects(passports);
  }

  lemma VerifiedSubjects(env: Env, st: Store, b: Bundle, mirror: bool, now: Str, call: I.Call<Db, Error>)
    ensures ImportVerified(env, st, b, mirror, now, call).0.app.passports
         == if FindPassport(st.app.passports, b.subject.subjectId).None? then I.Step(st, call).0.app.passports
            else st.app.passports
  {
    var registered := RegisterUnlessKnown(st, b.subject.subjectId, call).0.app;
    var inv := PassportsAre(registered.passports);
    RegisteredPassports(st, b.subject.subjectId, call);
    forall db | inv(db) ensures inv(ImportContents(env, db, b, mirror, now).0) {
      T.ImportContentsKeeps(inv, env, db, b, mirror, now);
    }
    VerifiedKeeps(inv, env, st, b, mirror, now, call);
  }

  lemma RegisteredPassports(st: Store, subject: Str, call: I.Call<Db, Error>)
    ensures RegisterUnlessKnown(st, subject, call).0.app.passports
         == if FindPassport(st.app.passports, subject).None? then I.Step(st, call).0.app.passports else st.app.passports
  {
  }

  /** What the rest of an import keeps outlasts it from the registration on. */
  lemma VerifiedKeeps(inv: Db -> bool, env: Env, st: Store, b: Bundle, mirror: bool, now: Str, call: I.Call<Db, Error>)
    requires inv(RegisterUnlessKnown(st, b.subject.subjectId, call).0.app)
    requires forall db | inv(db) :: inv(ImportContents(env, db, b, mirror, now).0)
    ensures inv(ImportVerified(env, st, b, mirror, now, call).0.app)
  {
  }

  lemma StepSubjects(env: Env, st: Store, op: T.Op)
    requires T.CredentialsValid(st.app.passports, st.app.credentials)
    ensures Grows(st.app.passports, T.Apply(env, st, op).app.passports, Notices(env, st, op), Unannounced(env, st, op))
  {
    match op
    case Register(body, key, now, freshId) =>
      CallGrows(st, body, env.passportOf(body), key, now, freshId,
                PassportCall(body, env.passportOf(body), key, now, freshId));
    case ImportBundle(b, mirror, now, freshId) =>
      ImportGrows(env, st, b, mirror, now, freshId);
      ImportCreatesFits(env, st, b, now, freshId);
      PickImported(ImportCreates(env, st, b, now, freshId), ImportTrustBundle(env, st, b, mirror, now, freshId).1,
                   b.receipt.receiptId);
    case _ =>
      OtherStepsLeaveSubjects(env, st, op);
      NoticesFit(env, st, op);
      ProjectNone(PickCreated, Notices(env, st, op));
      assert Subjects(st.app.passports) + ([] + []) == Subjects(st.app.passports);
  }

  /** How the subjects of a run relate to those announced and those left behind. */
  ghost predicate Accounted(subjects: seq<Str>, announced: seq<Str>, left: seq<Str>)
  {
    |subjects| == |announced| + |left| && (left == [] ==> subjects == announced)
  }

  lemma AccountedMore(subjects: seq<Str>, announced: seq<Str>, left: seq<Str>, more: seq<Str>, behind: seq<Str>)
    requires Accounted(subjects, announced, left)
    ensures Accounted(subjects + (more + behind), announced + more, left + behind)
  {
    if left + behind == [] {
      assert left == [] && behind == [] && more + behind == more;
    }
  }

  /** In every run the log announces the registered subjects, in order, exactly as long as no registration has
      failed at a repeated key id. */
  lemma PassportsReported(env: Env, ops: seq<T.Op>)
    ensures var subjects := Subjects(T.Run(env, P.START, ops).app.passports);
            subjects == Project(PickCreated, Journal(env, ops)) <==> AllUnannounced(env, ops) == []
  {
    PassportsAccounted(env, ops);
  }

  lemma {:induction false} PassportsAccounted(env: Env, ops: seq<T.Op>)
    ensures Accounted(Subjects(T.Run(env, P.START, ops).app.passports), Project(PickCreated, Journal(env, ops)),
                      AllUnannounced(env, ops))
  {
    if ops != [] {
      var front, last := ops[..|ops| - 1], ops[|ops| - 1];
      var st := T.Run(env, P.START, front);
      PassportsAccounted(env, front);
      T.RunInv(env, front);
      StepSubjects(env, st, last);
      ProjectConcat(PickCreated, Journal(env, front), Notices(env, st, last));
      AccountedMore(Subjects(st.app.passports), Project(PickCreated, Journal(env, front)), AllUnannounced(env, front),
                    Project(PickCreated, Notices(env, st, last)), Unannounced(env, st, last));
    }
  }

  // ---------------------------------------------------------------- what a subscriber learns

  // trust.resolved
  const TRUST_RESOLVED: Str := [
    0x74, 0x72, 0x75, 0x73, 0x74, 0x2E, 0x72, 0x65, 0x73, 0x6F, 0x6C, 0x76, 0x65, 0x64]

  const RESOLVED_ONLY := V.Filter([TRUST_RESOLVED], [])

  function Events(resolved: seq<(Str, Str)>, eventOf: ((Str, Str)) -> V.Event): (r: seq<V.Event>)
    ensures |r| == |resolved| && forall i | 0 <= i < |r| :: r[i] == eventOf(resolved[i])
  {
    seq(|resolved|, i requires 0 <= i < |resolved| => eventOf(resolved[i]))
  }

  /** The trust.resolved events of the log are those of the run's notices, in order. */
  ghost predicate Reports(log: seq<V.Event>, env: Env, ops: seq<T.Op>, eventOf: ((Str, Str)) -> V.Event)
  {
    V.Matching(RESOLVED_ONLY, log) == Events(Project(PickResolved, Journal(env, ops)), eventOf)
  }

  /** A subscriber to trust.resolved that joins within the first hundred events is handed, in whatever chunks its
      stream arrives, one payload per resolution that has a trace, in the order of the traces table. */
  lemma SubscriberLearnsResolutions(env: Env, ops: seq<T.Op>, log: seq<V.Event>, eventOf: ((Str, Str)) -> V.Event,
                                    joined: nat, frames: seq<C.Frame>, partial: Str, chunks: seq<Str>)
    requires Reports(log, env, ops, eventOf) && D.Writable(log) && joined <= |log| && joined <= V.REPLAY_LIMIT
    requires D.Carries(frames, V.Sent(RESOLVED_ONLY, log, V.FirstIndex(V.Absent, joined), joined))
    requires C.Concat(chunks) == C.ServerText(frames) + partial && C.FindBlank(partial) == |partial|
    ensures C.HandleAll(C.Init(C.SplitFrames(C.Concat(chunks))))
         == D.PayloadsOf(Events(Traced(T.Run(env, P.START, ops).app.traces), eventOf))
  {
    assert V.FirstIndex(V.Absent, joined) == 0 && log[0..] == log;
    D.EndToEnd(RESOLVED_ONLY, log, 0, joined, frames, partial, chunks);
    V.LatestHundredHasNoGap(RESOLVED_ONLY, log, V.Absent, joined);
    ResolutionsReported(env, ops);
  }
}
