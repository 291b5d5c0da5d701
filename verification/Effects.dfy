/** What each operation on the tables answers and what it leaves behind, said of the tables before and after. */
module Effects {
  import opened Utf16
  import opened CanonicalJson
  import opened JsonParser
  import opened CanonicalForm
  import opened TrustStore
  import Ordering
  import Rounding
  import R = Resolution
  import M = ResolutionMeaning
  import G = ValidatorGraph
  import K = Credentials
  import L = EvidenceLog
  import E = EvidenceTransfer
  import I = Idempotency
  import T = TrustRuns
  import P = Portability

  // ---------------------------------------------------------------- subjects

  /** p is the first passport of the subject. */
  ghost predicate First(passports: seq<Passport>, subject: Str, p: Passport)
  {
    exists i | 0 <= i < |passports| ::
      passports[i] == p && p.subjectId == subject && forall j | 0 <= j < i :: passports[j].subjectId != subject
  }

  ghost predicate Registered(passports: seq<Passport>, subject: Str)
  {
    exists p :: p in passports && p.subjectId == subject
  }

  /** ensureSubject lets exactly active subjects through. */
  ghost predicate Stands(db: Db, subject: Str, r: Result<Passport>)
  {
    match r
    case Ok(p) => First(db.passports, subject, p) && p.status == Active
    case Err(UnknownSubject) => !Registered(db.passports, subject)
    case Err(PassportRevoked) => exists p | First(db.passports, subject, p) :: p.status == Revoked
    case Err(PassportSuspended) => exists p | First(db.passports, subject, p) :: p.status == Suspended
    case _ => false
  }

  ghost predicate Found(passports: seq<Passport>, subject: Str, found: Option<Passport>)
  {
    match found
    case Some(p) => First(passports, subject, p)
    case None => !Registered(passports, subject)
  }

  lemma {:induction false} FindsFirst(passports: seq<Passport>, subject: Str)
    ensures Found(passports, subject, FindPassport(passports, subject))
  {
    if passports != [] && passports[0].subjectId != subject {
      FindsFirst(passports[1..], subject);
      match FindPassport(passports[1..], subject) {
        case Some(p) =>
          var i :| 0 <= i < |passports[1..]| && passports[1..][i] == p
                   && forall j | 0 <= j < i :: passports[1..][j].subjectId != subject;
          assert passports[i + 1] == p;
          forall j | 0 <= j < i + 1 ensures passports[j].subjectId != subject {
            if j > 0 { assert passports[j] == passports[1..][j - 1]; }
          }
        case None =>
      }
    }
  }

  lemma SubjectStands(db: Db, subject: Str)
    ensures Stands(db, subject, EnsureSubject(db, subject))
  {
    FindsFirst(db.passports, subject);
  }

  /** The passports with those of the subject revoked. */
  ghost predicate Revokes(passports: seq<Passport>, passports': seq<Passport>, subject: Str)
  {
    && |passports'| == |passports|
    && forall i | 0 <= i < |passports| ::
         passports'[i] == if passports[i].subjectId == subject then passports[i].(status := Revoked) else passports[i]
  }

  lemma RevokedIsRevoked(db: Db, db': Db, subject: Str)
    requires Revokes(db.passports, db'.passports, subject) && Registered(db.passports, subject)
    ensures EnsureSubject(db', subject) == Err(PassportRevoked)
  {
    FindsFirst(db'.passports, subject);
    var p :| p in db.passports && p.subjectId == subject;
    var i :| 0 <= i < |db.passports| && db.passports[i] == p;
    assert db'.passports[i] in db'.passports && db'.passports[i].subjectId == subject;
  }

  /** How a call ended, read off its reply. */
  function Ended(db: Db, reply: I.Reply<Error>): I.Outcome<Db, Error>
  {
    match reply
    case Response(body) => I.Returned(db, body)
    case Failure(e) => I.Threw(db, e)
    case Conflict => I.Threw(db, IdempotencyConflict)
  }

  // ---------------------------------------------------------------- recording evidence

  /** The log holds one more evidence, which reads back as the input with its defaults; the others read as before. */
  ghost predicate Logs(t: L.Tables, t': L.Tables, evidenceId: Str, input: L.EvidenceInput, createdAt: Str)
  {
    && |t'.rows| == |t.rows| + 1 && t'.rows[..|t.rows|] == t.rows
    && L.ToEvidence(t', t'.rows[|t.rows|]) == L.Resolved(evidenceId, input, createdAt)
    && forall i | 0 <= i < |t.rows| :: L.ToEvidence(t', t.rows[i]) == L.ToEvidence(t, t.rows[i])
  }

  /** The snapshots with the subject's computed from the tables given. */
  ghost predicate Recomputes(env: Env, from: Db, subject: Str, now: Str, snapshots: map<Str, SnapshotRow>,
                             snapshots': map<Str, SnapshotRow>)
  {
    snapshots' == snapshots[subject := env.snapshotOf(from, subject, now).(subjectId := subject)]
  }

  /** New evidence is logged, the snapshot computed with it, and the subject revoked exactly by evidence of the
      revoking type; no other passport and no other table changes. */
  ghost predicate Records(env: Env, db: Db, db': Db, input: L.EvidenceInput, createdAt: Str, now: Str, evidenceId: Str)
  {
    && Logs(db.evidence, db'.evidence, evidenceId, input, createdAt)
    && Recomputes(env, db.(evidence := db'.evidence), input.subjectId, now, db.snapshots, db'.snapshots)
    && db' == db.(evidence := db'.evidence, snapshots := db'.snapshots, passports := db'.passports)
    && (EnsureSubject(db', input.subjectId) == Err(PassportRevoked) <==> input.eventType == env.revokeType)
    && (if input.eventType == env.revokeType then Revokes(db.passports, db'.passports, input.subjectId)
        else db'.passports == db.passports)
  }

  /** recordEvidence: refused for a malformed request or a subject that is not active; answered with the known id,
      changing nothing, when its content is known; recorded otherwise. */
  ghost predicate EvidenceHandled(env: Env, db: Db, outcome: I.Outcome<Db, Error>, input: L.EvidenceInput,
                                  createdAt: Str, now: Str, evidenceId: Str)
  {
    var subject := EnsureSubject(db, input.subjectId);
    if input.subjectId == [] || input.eventType !in env.eventTypes then outcome == I.Threw(db, InvalidRequest)
    else if subject.Err? then outcome == I.Threw(db, subject.error)
    else if L.HasHash(db.evidence, L.Fingerprint(input)) then
      exists i | 0 <= i < |db.evidence.rows| ::
        db.evidence.rows[i].hash == L.Fingerprint(input)
        && outcome == I.Returned(db, Json.Text(db.evidence.rows[i].evidenceId))
    else if L.HasId(db.evidence, evidenceId) then outcome == I.Threw(db, ConstraintFailed)
    else
      && outcome == I.Returned(outcome.state, Json.Text(evidenceId))
      && Records(env, db, outcome.state, input, createdAt, now, evidenceId)
  }

  lemma LogsPersisted(t: L.Tables, input: L.EvidenceInput, createdAt: Str, evidenceId: Str)
    requires L.OwnersExist(t) && !L.HasId(t, evidenceId)
    ensures Logs(t, L.Persisted(t, evidenceId, L.Fingerprint(input), input, createdAt), evidenceId, input, createdAt)
  {
    L.ReadBack(t, evidenceId, L.Fingerprint(input), input, createdAt);
  }

  /** What the handler makes of new evidence. */
  lemma RecordsNew(env: Env, db: Db, input: L.EvidenceInput, createdAt: Str, now: Str, evidenceId: Str,
                   recorded: Db, db': Db)
    requires Logs(db.evidence, recorded.evidence, evidenceId, input, createdAt)
    requires recorded == db.(evidence := recorded.evidence) && EnsureSubject(db, input.subjectId).Ok?
    requires var computed := RecomputeSnapshot(env, recorded, input.subjectId, now).0;
             db' == if input.eventType == env.revokeType
                    then SetPassportStatus(computed, input.subjectId, Revoked).0 else computed
    ensures Records(env, db, db', input, createdAt, now, evidenceId)
  {
    assert EnsureSubject(recorded, input.subjectId) == EnsureSubject(db, input.subjectId);
    FindsFirst(db.passports, input.subjectId);
    if input.eventType == env.revokeType {
      assert Revokes(db.passports, db'.passports, input.subjectId);
      assert Registered(db.passports, input.subjectId);
      RevokedIsRevoked(db, db', input.subjectId);
    } else {
      assert EnsureSubject(db', input.subjectId) == EnsureSubject(db, input.subjectId);
    }
  }

  lemma NewOutcome(env: Env, db: Db, input: L.EvidenceInput, createdAt: Str, now: Str, evidenceId: Str, recorded: Db)
    requires input.subjectId != [] && input.eventType in env.eventTypes && EnsureSubject(db, input.subjectId).Ok?
    requires L.IdOfHash(db.evidence.rows, L.Fingerprint(input)).None? && !L.HasId(db.evidence, evidenceId)
    requires recorded == T.Recorded(db, input, createdAt, evidenceId)
    ensures var computed := RecomputeSnapshot(env, recorded, input.subjectId, now).0;
            RecordEvidence(env, db, input, createdAt, now, evidenceId) ==
            I.Returned(if input.eventType == env.revokeType
                       then SetPassportStatus(computed, input.subjectId, Revoked).0 else computed,
                       Json.Text(evidenceId))
  {
    assert EnsureSubject(recorded, input.subjectId) == EnsureSubject(db, input.subjectId);
  }

  lemma NewIsHandled(env: Env, db: Db, input: L.EvidenceInput, createdAt: Str, now: Str, evidenceId: Str,
                     outcome: I.Outcome<Db, Error>)
    requires L.OwnersExist(db.evidence) && input.subjectId != [] && input.eventType in env.eventTypes
    requires EnsureSubject(db, input.subjectId).Ok?
    requires L.IdOfHash(db.evidence.rows, L.Fingerprint(input)).None? && !L.HasId(db.evidence, evidenceId)
    requires outcome == RecordEvidence(env, db, input, createdAt, now, evidenceId)
    ensures outcome == I.Returned(outcome.state, Json.Text(evidenceId))
            && Records(env, db, outcome.state, input, createdAt, now, evidenceId)
  {
    var recorded := T.Recorded(db, input, createdAt, evidenceId);
    LogsPersisted(db.evidence, input, createdAt, evidenceId);
    NewOutcome(env, db, input, createdAt, now, evidenceId, recorded);
    RecordsNew(env, db, input, createdAt, now, evidenceId, recorded, outcome.state);
  }

  lemma EvidenceIsHandled(env: Env, db: Db, input: L.EvidenceInput, createdAt: Str, now: Str, evidenceId: Str)
    requires L.OwnersExist(db.evidence)
    ensures EvidenceHandled(env, db, RecordEvidence(env, db, input, createdAt, now, evidenceId), input, createdAt, now,
                            evidenceId)
  {
    if input.subjectId != [] && input.eventType in env.eventTypes && EnsureSubject(db, input.subjectId).Ok?
      && L.IdOfHash(db.evidence.rows, L.Fingerprint(input)).None? && !L.HasId(db.evidence, evidenceId) {
      NewIsHandled(env, db, input, createdAt, now, evidenceId,
                   RecordEvidence(env, db, input, createdAt, now, evidenceId));
    }
  }

  // ---------------------------------------------------------------- exporting

  /** How many rows the subject has. */
  ghost function RowCount(rows: seq<L.EvidenceRow>, subject: Str): nat
  {
    |set i | 0 <= i < |rows| && rows[i].subjectId == subject|
  }

  /** At least one, 25 when it is not given. */
  function EvidenceLimit(input: ExportInput): int
  {
    match input.evidenceLimit
    case Some(n) => if n < 1 then 1 else n
    case None => 25
  }

  /** Evidence of the subject from the log, newest first, as much of it as is asked for, and none left out that is
      newer than what is taken. */
  ghost predicate TakesNewest(t: L.Tables, input: ExportInput, evidence: seq<L.Evidence>)
  {
    && E.Listed(evidence, input.subjectId)
    && TakesFrom(E.Reader(t), t.rows, input, evidence)
  }

  ghost predicate TakesFrom(read: L.EvidenceRow -> L.Evidence, rows: seq<L.EvidenceRow>, input: ExportInput,
                            evidence: seq<L.Evidence>)
  {
    && |evidence| == (if !input.includeEvidence then 0
                      else if RowCount(rows, input.subjectId) < EvidenceLimit(input)
                      then RowCount(rows, input.subjectId) else EvidenceLimit(input))
    && (forall e | e in evidence :: exists r | r in rows && r.subjectId == input.subjectId :: read(r) == e)
    && forall r | r in rows && r.subjectId == input.subjectId && read(r) !in evidence ::
         forall e | e in evidence :: E.Before(e, read(r))
  }

  /** The positions with a property. */
  function Places<T>(p: T -> bool, s: seq<T>): set<int>
  {
    set i | 0 <= i < |s| && p(s[i])
  }

  lemma PlacesFront<T>(p: T -> bool, s: seq<T>)
    requires s != []
    ensures |Places(p, s)| == |Places(p, s[..|s| - 1])| + if p(s[|s| - 1]) then 1 else 0
  {
    var n := |s| - 1;
    assert Places(p, s) == Places(p, s[..n]) + if p(s[n]) then {n} else {};
  }

  lemma PlacesAre(rows: seq<L.EvidenceRow>, subject: Str, own: L.EvidenceRow -> bool)
    requires forall r :: own(r) == (r.subjectId == subject)
    ensures RowCount(rows, subject) == |Places(own, rows)|
  {
    assert Places(own, rows) == set i | 0 <= i < |rows| && rows[i].subjectId == subject;
  }

  lemma RowCountFront(rows: seq<L.EvidenceRow>, subject: Str)
    requires rows != []
    ensures RowCount(rows, subject)
         == RowCount(rows[..|rows| - 1], subject) + if rows[|rows| - 1].subjectId == subject then 1 else 0
  {
    var n := |rows| - 1;
    var own := (r: L.EvidenceRow) => r.subjectId == subject;
    PlacesFront(own, rows);
    PlacesAre(rows, subject, own);
    PlacesAre(rows[..n], subject, own);
  }

  lemma {:induction false} RowsForCount(rows: seq<L.EvidenceRow>, subject: Str)
    ensures |L.RowsFor(rows, subject)| == RowCount(rows, subject)
    ensures forall r | r in rows && r.subjectId == subject :: r in L.RowsFor(rows, subject)
  {
    if rows != [] {
      RowCountFront(rows, subject);
      RowsForCount(rows[..|rows| - 1], subject);
      assert rows == rows[..|rows| - 1] + [rows[|rows| - 1]];
    }
  }

  /** Everything the subject has in the rows, read. */
  ghost predicate Reads(read: L.EvidenceRow -> L.Evidence, rows: seq<L.EvidenceRow>, subject: Str, all: seq<L.Evidence>)
  {
    && |all| == RowCount(rows, subject)
    && (forall e | e in all :: exists r | r in rows && r.subjectId == subject :: read(r) == e)
    && forall r | r in rows && r.subjectId == subject :: read(r) in all
  }

  lemma SortedReads(read: L.EvidenceRow -> L.Evidence, rows: seq<L.EvidenceRow>, subject: Str,
                    sorted: seq<L.EvidenceRow>, all: seq<L.Evidence>)
    requires multiset(sorted) == multiset(L.RowsFor(rows, subject)) && E.ReadsAs(read, sorted, all)
    requires forall r | r in sorted :: r in rows && r.subjectId == subject
    ensures Reads(read, rows, subject, all)
  {
    RowsForCount(rows, subject);
    Ordering.SameLength(sorted, L.RowsFor(rows, subject));
    forall e | e in all ensures exists r | r in rows && r.subjectId == subject :: read(r) == e {
      var i :| 0 <= i < |all| && all[i] == e;
      assert read(sorted[i]) == e && sorted[i] in sorted;
    }
    forall r | r in rows && r.subjectId == subject ensures read(r) in all {
      assert r in multiset(L.RowsFor(rows, subject));
      assert r in multiset(sorted);
      var i :| 0 <= i < |sorted| && sorted[i] == r;
      assert all[i] == read(r);
    }
  }

  lemma ListReads(t: L.Tables, subject: Str)
    requires L.IndexAgrees(t)
    ensures Reads(E.Reader(t), t.rows, subject, L.ListEvidence(t, subject))
  {
    var sorted := Ordering.Sort(L.NewestFirst(), L.RowsFor(t.rows, subject));
    E.SelectedRowsListed(t, subject);
    SortedReads(E.Reader(t), t.rows, subject, sorted, L.ListEvidence(t, subject));
  }

  lemma FrontIsNewest(hash: L.Evidence -> Digest, all: seq<L.Evidence>, subject: Str, k: nat, e: L.Evidence)
    requires E.ListedBy(hash, all, subject) && k <= |all| && e in all && e !in all[..k]
    ensures forall f | f in all[..k] :: E.Before(f, e)
  {
    var j :| 0 <= j < |all| && all[j] == e;
    assert forall i | 0 <= i < k :: all[..k][i] != e && all[..k][i] == all[i];
    forall f | f in all[..k] ensures E.Before(f, e) {
      var i :| 0 <= i < k && all[..k][i] == f;
    }
  }

  lemma FrontTakes(read: L.EvidenceRow -> L.Evidence, hash: L.Evidence -> Digest, rows: seq<L.EvidenceRow>,
                   input: ExportInput, all: seq<L.Evidence>, k: nat)
    requires E.ListedBy(hash, all, input.subjectId) && Reads(read, rows, input.subjectId, all) && k <= |all|
    requires k == if |all| < EvidenceLimit(input) then |all| else EvidenceLimit(input)
    requires input.includeEvidence
    ensures TakesFrom(read, rows, input, all[..k])
  {
    forall r | r in rows && r.subjectId == input.subjectId && read(r) !in all[..k]
      ensures forall e | e in all[..k] :: E.Before(e, read(r))
    {
      FrontIsNewest(hash, all, input.subjectId, k, read(r));
    }
    forall e | e in all[..k] ensures exists r | r in rows && r.subjectId == input.subjectId :: read(r) == e {
      assert e in all;
    }
  }

  lemma TakeIsFront<T>(s: seq<T>, n: int) returns (k: nat)
    requires n >= 1
    ensures k == (if |s| < n then |s| else n) && Take(s, n) == s[..k]
  {
    k := if |s| < n then |s| else n;
  }

  lemma ExportTakesNewest(db: Db, input: ExportInput)
    requires L.IndexAgrees(db.evidence)
    ensures TakesNewest(db.evidence, input, ExportedEvidence(db, input))
  {
    P.ExportedIsListed(db, input);
    if input.includeEvidence {
      var all := L.ListEvidence(db.evidence, input.subjectId);
      ListReads(db.evidence, input.subjectId);
      E.ListIsListed(db.evidence, input.subjectId);
      var k := TakeIsFront(all, EvidenceLimit(input));
      FrontTakes(E.Reader(db.evidence), E.ContentHash(), db.evidence.rows, input, all, k);
    } else {
      TakesNothing(E.Reader(db.evidence), db.evidence.rows, input);
    }
  }

  lemma TakesNothing(read: L.EvidenceRow -> L.Evidence, rows: seq<L.EvidenceRow>, input: ExportInput)
    requires !input.includeEvidence
    ensures TakesFrom(read, rows, input, [])
  {
  }

  // Trace references.

  function TraceCount(traces: seq<Trace>, subject: Str): nat
  {
    if traces == [] then 0 else (if traces[0].subjectId == subject then 1 else 0) + TraceCount(traces[1..], subject)
  }

  /** Up to twenty traces of the subject, latest first, and none left out that is later than one taken. */
  ghost predicate LatestTraces(picked: seq<Trace>, traces: seq<Trace>, subject: Str)
  {
    && |picked| == (if TraceCount(traces, subject) < 20 then TraceCount(traces, subject) else 20)
    && multiset(picked) <= multiset(traces) && (forall t | t in picked :: t.subjectId == subject)
    && (forall i, j | 0 <= i < j < |picked| :: !Less(picked[i].createdAt, picked[j].createdAt))
    && forall t | t in traces && t.subjectId == subject && multiset(picked)[t] < multiset(traces)[t] ::
         forall q | q in picked :: !Less(q.createdAt, t.createdAt)
  }

  /** The ids of the latest traces, or none. */
  ghost predicate TakesTraces(traces: seq<Trace>, input: ExportInput, traceRefs: seq<Str>)
  {
    if !input.includeTraceIds then traceRefs == []
    else
      exists picked: seq<Trace> | LatestTraces(picked, traces, input.subjectId) ::
        |traceRefs| == |picked| && forall i | 0 <= i < |picked| :: traceRefs[i] == picked[i].traceId
  }

  lemma {:induction false} TracesOfCount(traces: seq<Trace>, subject: Str)
    ensures var own := TracesOf(traces, subject);
            && |own| == TraceCount(traces, subject)
            && forall t :: multiset(own)[t] == if t.subjectId == subject then multiset(traces)[t] else 0
  {
    if traces != [] {
      TracesOfCount(traces[1..], subject);
      assert traces == [traces[0]] + traces[1..];
      OneMoreOf(traces[0], traces[1..], TracesOf(traces[1..], subject), subject);
    }
  }

  lemma OneMoreOf(first: Trace, rest: seq<Trace>, own: seq<Trace>, subject: Str)
    requires forall t :: multiset(own)[t] == if t.subjectId == subject then multiset(rest)[t] else 0
    ensures var more := (if first.subjectId == subject then [first] else []) + own;
            forall t :: multiset(more)[t] == if t.subjectId == subject then multiset([first] + rest)[t] else 0
  {
  }

  lemma TraceOrder()
    ensures Ordering.WeakOrder(NewerTrace())
  {
    var less := NewerTrace();
    LessIsOrder();
    forall x ensures !less(x, x) { LessIrreflexive(x.createdAt); }
    forall x, y, z | less(x, y) && less(y, z) ensures less(x, z) {
      LessTransitive(z.createdAt, y.createdAt, x.createdAt);
    }
    forall x, y, z | less(x, z) ensures less(x, y) || less(y, z) {
      if x.createdAt != y.createdAt { LessTotal(x.createdAt, y.createdAt); }
      if Less(x.createdAt, y.createdAt) { LessTransitive(z.createdAt, x.createdAt, y.createdAt); }
    }
  }

  lemma {:induction false} TraceIdAt(traces: seq<Trace>)
    ensures |TraceIds(traces)| == |traces| && forall i | 0 <= i < |traces| :: TraceIds(traces)[i] == traces[i].traceId
  {
    if traces != [] {
      TraceIdAt(traces[1..]);
    }
  }

  /** The first k of a sorted sequence, against what is behind them. */
  lemma FrontLeads<T(!new)>(less: (T, T) -> bool, sorted: seq<T>, k: nat)
    requires Ordering.Sorted(less, sorted) && k <= |sorted|
    ensures forall i, j | 0 <= i < j < k :: !less(sorted[..k][j], sorted[..k][i])
    ensures forall t, q | multiset(sorted[..k])[t] < multiset(sorted)[t] && q in sorted[..k] :: !less(t, q)
    ensures multiset(sorted[..k]) <= multiset(sorted)
  {
    var picked, rest := sorted[..k], sorted[k..];
    assert sorted == picked + rest;
    forall t, q | multiset(picked)[t] < multiset(sorted)[t] && q in picked ensures !less(t, q) {
      assert t in multiset(rest);
      var i :| 0 <= i < |picked| && picked[i] == q;
      var j :| 0 <= j < |rest| && rest[j] == t;
      assert sorted[k + j] == t && sorted[i] == q;
    }
  }

  lemma FrontIsLatest(traces: seq<Trace>, subject: Str, sorted: seq<Trace>, k: nat)
    requires Ordering.Sorted(NewerTrace(), sorted) && multiset(sorted) == multiset(TracesOf(traces, subject))
    requires k == (if |sorted| < 20 then |sorted| else 20) && |sorted| == TraceCount(traces, subject)
    ensures LatestTraces(sorted[..k], traces, subject)
  {
    TracesOfCount(traces, subject);
    FrontLeads(NewerTrace(), sorted, k);
    PickedAreLatest(sorted[..k], sorted, traces, subject, NewerTrace());
  }

  lemma PickedAreLatest(picked: seq<Trace>, sorted: seq<Trace>, traces: seq<Trace>, subject: Str,
                        less: (Trace, Trace) -> bool)
    requires forall a, b :: less(a, b) == Less(b.createdAt, a.createdAt)
    requires |picked| == if TraceCount(traces, subject) < 20 then TraceCount(traces, subject) else 20
    requires forall t :: multiset(sorted)[t] == if t.subjectId == subject then multiset(traces)[t] else 0
    requires multiset(picked) <= multiset(sorted)
    requires forall i, j | 0 <= i < j < |picked| :: !less(picked[j], picked[i])
    requires forall t, q | multiset(picked)[t] < multiset(sorted)[t] && q in picked :: !less(t, q)
    ensures LatestTraces(picked, traces, subject)
  {
    forall t | t in picked ensures t.subjectId == subject {
      assert t in multiset(picked);
    }
    forall i, j | 0 <= i < j < |picked| ensures !Less(picked[i].createdAt, picked[j].createdAt) {
      assert !less(picked[j], picked[i]);
    }
    forall t, q | t in traces && t.subjectId == subject && multiset(picked)[t] < multiset(traces)[t] && q in picked
      ensures !Less(q.createdAt, t.createdAt)
    {
      assert !less(t, q);
    }
  }

  lemma LatestSorted(own: seq<Trace>)
    ensures Ordering.Sorted(NewerTrace(), Ordering.Sort(NewerTrace(), own))
  {
    TraceOrder();
    Ordering.SortSorted(NewerTrace(), own);
  }

  lemma RefsOfSorted(traces: seq<Trace>, input: ExportInput, sorted: seq<Trace>, refs: seq<Str>)
    requires input.includeTraceIds && Ordering.Sorted(NewerTrace(), sorted)
    requires multiset(sorted) == multiset(TracesOf(traces, input.subjectId))
    requires |sorted| == |TracesOf(traces, input.subjectId)| && refs == Take(TraceIds(sorted), 20)
    ensures TakesTraces(traces, input, refs)
  {
    TracesOfCount(traces, input.subjectId);
    TraceIdAt(sorted);
    var k := TakeIsFront(TraceIds(sorted), 20);
    FrontIsLatest(traces, input.subjectId, sorted, k);
    RefsArePicked(traces, input, refs, sorted[..k]);
  }

  lemma ExportTakesTraces(db: Db, input: ExportInput)
    ensures TakesTraces(db.traces, input, ExportedTraces(db, input))
  {
    if input.includeTraceIds {
      var own := TracesOf(db.traces, input.subjectId);
      LatestSorted(own);
      RefsOfSorted(db.traces, input, Ordering.Sort(NewerTrace(), own), ExportedTraces(db, input));
    }
  }

  lemma RefsArePicked(traces: seq<Trace>, input: ExportInput, refs: seq<Str>, picked: seq<Trace>)
    requires input.includeTraceIds && LatestTraces(picked, traces, input.subjectId)
    requires |refs| == |picked| && forall i | 0 <= i < |picked| :: refs[i] == picked[i].traceId
    ensures TakesTraces(traces, input, refs)
  {
  }

  // The bundle.

  /** The snapshot of the subject, stored or else computed now and stored. */
  ghost predicate ReadsSnapshot(env: Env, db: Db, snapshots': map<Str, SnapshotRow>, subject: Str, now: Str,
                                row: SnapshotRow)
  {
    if subject in db.snapshots then row == db.snapshots[subject] && snapshots' == db.snapshots
    else
      && row == env.snapshotOf(db, subject, now).(subjectId := subject)
      && snapshots' == db.snapshots[subject := row]
  }

  /** The bundle holds the passport, its keys and capabilities, the snapshot, the newest evidence and the latest
      traces, and a receipt for the asked network, by default the environment itself, signed over its hash. */
  ghost predicate Bundles(env: Env, db: Db, b: Bundle, input: ExportInput, receiptId: Str)
  {
    var target := match input.targetNetwork case Some(network) => network case None => env.environment;
    && EnsureSubject(db, input.subjectId) == Ok(b.subject)
    && b.sourceEnvironment == env.environment
    && b.publicKeys == K.KeysOf(db.credentials.keys, b.subject.passportId)
    && b.capabilities == K.CapabilitiesOf(db.credentials.capabilities, b.subject.passportId)
    && TakesNewest(db.evidence, input, b.evidence)
    && TakesTraces(db.traces, input, b.traceRefs)
    && b.receipt
       == Receipt(receiptId, input.subjectId, env.environment, target, HmacSha256(env.signingKey, BundleHash(b)))
  }

  /** exportTrustBundle: refused for a subject that is not active and for a receipt id that is taken; otherwise the
      bundle, whose receipt is stored, beside a snapshot that had to be computed. */
  ghost predicate Exports(env: Env, db: Db, db': Db, r: Result<Bundle>, input: ExportInput, now: Str, receiptId: Str)
  {
    var subject := EnsureSubject(db, input.subjectId);
    if subject.Err? then r == Err(subject.error) && db' == db
    else
      exists row | ReadsSnapshot(env, db, db'.snapshots, input.subjectId, now, row) ::
        if receiptId in db.receipts then r == Err(ConstraintFailed) && db' == db.(snapshots := db'.snapshots)
        else
          && r.Ok? && r.value.snapshot == row && Bundles(env, db, r.value, input, receiptId)
          && db' == db.(snapshots := db'.snapshots, receipts := db'.receipts)
          && db'.receipts
             == db.receipts[receiptId := ReceiptRow(input.subjectId, Export, r.value.receipt.targetNetwork,
                                                    BundleHash(r.value), r.value.receipt.signature)]
  }

  lemma SnapshotIsRead(env: Env, db: Db, subject: Str, now: Str)
    requires EnsureSubject(db, subject).Ok?
    ensures var (db', row) := SnapshotFor(env, db, subject, now);
            row.Ok? && db' == db.(snapshots := db'.snapshots)
            && ReadsSnapshot(env, db, db'.snapshots, subject, now, row.value)
  {
  }

  lemma BundleHolds(env: Env, db: Db, db1: Db, passport: Passport, snapshot: SnapshotRow, input: ExportInput,
                    receiptId: Str, b: Bundle)
    requires L.IndexAgrees(db.evidence) && EnsureSubject(db, input.subjectId) == Ok(passport)
    requires db1 == db.(snapshots := db1.snapshots)
    requires b == BundleOf(env, db1, passport, snapshot, input, receiptId)
    ensures Bundles(env, db, b, input, receiptId) && b.snapshot == snapshot
  {
    ExportTakesNewest(db, input);
    ExportTakesTraces(db, input);
    SubjectStands(db, input.subjectId);
  }

  lemma ExportIsExported(env: Env, db: Db, input: ExportInput, now: Str, receiptId: Str)
    requires L.IndexAgrees(db.evidence)
    ensures var (db', r) := ExportTrustBundle(env, db, input, now, receiptId);
            Exports(env, db, db', r, input, now, receiptId)
  {
    var subject := EnsureSubject(db, input.subjectId);
    if subject.Ok? {
      var (db1, row) := SnapshotFor(env, db, input.subjectId, now);
      SnapshotIsRead(env, db, input.subjectId, now);
      var b := BundleOf(env, db1, subject.value, row.value, input, receiptId);
      BundleHolds(env, db, db1, subject.value, row.value, input, receiptId, b);
      var (db', r) := BookExport(db1, b);
      assert ReadsSnapshot(env, db, db'.snapshots, input.subjectId, now, row.value);
    }
  }

  // ---------------------------------------------------------------- recommending validators

  /** Good enough to validate: a band that may validate, and no collusion risk from 0.55 on. */
  ghost predicate Suitable(env: Env, row: SnapshotRow, context: R.Context, policy: R.Policy)
  {
    && M.AtLeast(R.ComputeResolution(row.vector, row.counts, context, policy, env.config).band,
                 M.RuleOf(policy, context.risk).minimumForValidation)
    && (row.vector.collusionRisk.None? || row.vector.collusionRisk.value < 0.55)
  }

  /** Four fifths competence in the domain, 0.2 where there is none, and one fifth confidence, to two decimals. */
  function Rated(env: Env, subject: Str, row: SnapshotRow, context: R.Context, policy: R.Policy): Recommendation
  {
    var c := R.ComputeResolution(row.vector, row.counts, context, policy, env.config);
    var competence :=
      match context.domain
      case None => 0.2
      case Some(d) => if d in row.vector.domainCompetence.Keys then row.vector.domainCompetence[d] else 0.2;
    var fit := Rounding.Clamp(0.0, 0.8 * competence + 0.2 * c.confidence, 1.0);
    Recommendation(subject, c.score, Rounding.Round(100.0 * fit) as real / 100.0)
  }

  lemma RecommendIs(env: Env, subject: Str, row: SnapshotRow, context: R.Context, policy: R.Policy)
    ensures Recommend(env, subject, row, context, policy)
         == if Suitable(env, row, context, policy) then [Rated(env, subject, row, context, policy)] else []
  {
    M.ValidatesIff(R.ComputeResolution(row.vector, row.counts, context, policy, env.config).band, context, policy);
  }

  /** The suitable candidates other than one, rated by their snapshots. */
  ghost function Considered(env: Env, snapshots: map<Str, SnapshotRow>, exclude: Str, candidates: seq<Str>,
                            context: R.Context, policy: R.Policy): seq<Recommendation>
  {
    if candidates == [] then []
    else
      var c := candidates[0];
      (if c != exclude && c in snapshots && Suitable(env, snapshots[c], context, policy)
       then [Rated(env, c, snapshots[c], context, policy)] else [])
      + Considered(env, snapshots, exclude, candidates[1..], context, policy)
  }

  /** A candidate whose snapshot is there or can be computed. */
  ghost predicate Reachable(db: Db, c: Str)
  {
    c in db.snapshots || EnsureSubject(db, c).Ok?
  }

  /** Snapshots stay; new ones are those of candidates that are active subjects. */
  ghost predicate Grown(db: Db, db': Db, exclude: Str, candidates: seq<Str>)
  {
    && db' == db.(snapshots := db'.snapshots)
    && (forall s | s in db.snapshots :: s in db'.snapshots && db'.snapshots[s] == db.snapshots[s])
    && forall s | s in db'.snapshots && s !in db.snapshots ::
         s in candidates && s != exclude && EnsureSubject(db, s).Ok? && db'.snapshots[s].subjectId == s
  }

  /** The candidate loop rates the suitable candidates in their order, or stops at one that is unreachable. */
  ghost predicate Considers(env: Env, db: Db, db': Db, r: Result<seq<Recommendation>>, exclude: Str,
                            candidates: seq<Str>, context: R.Context, policy: R.Policy)
  {
    && Grown(db, db', exclude, candidates)
    && match r
       case Ok(all) =>
         && (forall c | c in candidates && c != exclude :: Reachable(db, c) && c in db'.snapshots)
         && all == Considered(env, db'.snapshots, exclude, candidates, context, policy)
       case Err(e) => exists c | c in candidates && c != exclude :: !Reachable(db, c) && EnsureSubject(db, c) == Err(e)
  }

  lemma {:induction false} ConsideredKept(env: Env, snapshots: map<Str, SnapshotRow>,
                                          snapshots': map<Str, SnapshotRow>, exclude: Str, candidates: seq<Str>,
                                          context: R.Context, policy: R.Policy)
    requires forall c | c in candidates && c != exclude ::
               c in snapshots && c in snapshots' && snapshots'[c] == snapshots[c]
    ensures Considered(env, snapshots, exclude, candidates, context, policy)
         == Considered(env, snapshots', exclude, candidates, context, policy)
  {
    if candidates != [] {
      ConsideredKept(env, snapshots, snapshots', exclude, candidates[1..], context, policy);
    }
  }

  lemma SnapshotGrows(env: Env, db: Db, subject: Str, now: Str)
    ensures var (db', row) := SnapshotFor(env, db, subject, now);
            && db' == db.(snapshots := db'.snapshots)
            && (forall s | s in db.snapshots :: s in db'.snapshots && db'.snapshots[s] == db.snapshots[s])
            && (row.Ok? <==> Reachable(db, subject))
            && (row.Ok? ==> subject in db'.snapshots && db'.snapshots[subject] == row.value)
            && (row.Err? ==> db' == db && EnsureSubject(db, subject) == Err(row.error))
            && forall s | s in db'.snapshots && s !in db.snapshots ::
                 s == subject && EnsureSubject(db, s).Ok? && db'.snapshots[s].subjectId == s
  {
  }

  lemma GrownTwice(db: Db, db1: Db, db2: Db, exclude: Str, first: Str, rest: seq<Str>)
    requires first != exclude && Grown(db, db1, exclude, [first]) && Grown(db1, db2, exclude, rest)
    ensures Grown(db, db2, exclude, [first] + rest)
    ensures forall c :: EnsureSubject(db1, c) == EnsureSubject(db, c)
    ensures forall c | c != first :: Reachable(db1, c) <==> Reachable(db, c)
  {
  }

  /** One round of the loop before the others. */
  lemma ConsidersNext(env: Env, db: Db, db1: Db, db2: Db, exclude: Str, first: Str, rest: seq<Str>,
                      context: R.Context, policy: R.Policy, row: SnapshotRow, more: Result<seq<Recommendation>>,
                      r: Result<seq<Recommendation>>)
    requires first != exclude && Reachable(db, first)
    requires Grown(db, db1, exclude, [first]) && first in db1.snapshots && db1.snapshots[first] == row
    requires Considers(env, db1, db2, more, exclude, rest, context, policy)
    requires r == if more.Err? then more
                  else Ok((if Suitable(env, row, context, policy)
                           then [Rated(env, first, row, context, policy)] else []) + more.value)
    ensures Considers(env, db, db2, r, exclude, [first] + rest, context, policy)
  {
    GrownTwice(db, db1, db2, exclude, first, rest);
    if more.Ok? {
      assert ([first] + rest)[1..] == rest;
    } else {
      var c :| c in rest && c != exclude && !Reachable(db1, c) && EnsureSubject(db1, c) == Err(more.error);
      assert c in [first] + rest && !Reachable(db, c);
    }
  }

  lemma {:induction false} CandidatesConsidered(env: Env, db: Db, exclude: Str, candidates: seq<Str>,
                                                context: R.Context, policy: R.Policy, now: Str)
    ensures var (db', r) := Candidates(env, db, exclude, candidates, context, policy, now);
            Considers(env, db, db', r, exclude, candidates, context, policy)
    decreases |candidates|
  {
    if candidates != [] {
      var c := candidates[0];
      var rest := candidates[1..];
      assert candidates == [c] + rest;
      if c == exclude {
        CandidatesConsidered(env, db, exclude, rest, context, policy, now);
      } else {
        SnapshotGrows(env, db, c, now);
        var (db1, row) := SnapshotFor(env, db, c, now);
        if row.Ok? {
          CandidatesConsidered(env, db1, exclude, rest, context, policy, now);
          RecommendIs(env, c, row.value, context, policy);
          var (db2, more) := Candidates(env, db1, exclude, rest, context, policy, now);
          ConsidersNext(env, db, db1, db2, exclude, c, rest, context, policy, row.value, more,
                        Candidates(env, db, exclude, candidates, context, policy, now).1);
        } else {
          assert c in candidates && !Reachable(db, c);
        }
      }
    }
  }

  /** The candidates of a request: those it names, or else every active subject but its own. */
  ghost predicate IsCandidate(db: Db, input: ResolveInput, c: Str)
  {
    c != input.subjectId
    && if input.candidates != [] then c in input.candidates
       else exists p :: p in db.passports && p.subjectId == c && p.status == Active
  }

  lemma {:induction false} ActiveOthers(passports: seq<Passport>, subject: Str)
    ensures forall c ::
              c in ActiveExcept(passports, subject)
              <==> c != subject && exists p :: p in passports && p.subjectId == c && p.status == Active
  {
    if passports != [] {
      ActiveOthers(passports[1..], subject);
      assert passports == [passports[0]] + passports[1..];
    }
  }

  /** The best three of the rated ones: by fit, then by score, then by name. */
  ghost predicate BestThree(collate: (Str, Str) -> int, best: seq<Recommendation>, all: seq<Recommendation>)
  {
    && |best| == (if |all| < 3 then |all| else 3) && multiset(best) <= multiset(all)
    && (forall i, j | 0 <= i < j < |best| :: !Fitter(collate, best[j], best[i]))
    && forall a, b | multiset(best)[a] < multiset(all)[a] && b in best :: !Fitter(collate, a, b)
  }

  predicate Fitter(collate: (Str, Str) -> int, a: Recommendation, b: Recommendation)
  {
    || a.fit > b.fit
    || (a.fit == b.fit && a.score > b.score)
    || (a.fit == b.fit && a.score == b.score && collate(a.subjectId, b.subjectId) < 0)
  }

  lemma FitOrder(collate: (Str, Str) -> int)
    requires G.Collation(collate)
    ensures Ordering.WeakOrder(BetterFit(collate))
  {
    var less, names := BetterFit(collate), (x: Str, y: Str) => collate(x, y) < 0;
    assert Ordering.WeakOrder(names);
    forall x ensures !less(x, x) { assert !names(x.subjectId, x.subjectId); }
    forall x, y, z | less(x, y) && less(y, z) ensures less(x, z) {
      assert names(x.subjectId, y.subjectId) && names(y.subjectId, z.subjectId) ==> names(x.subjectId, z.subjectId);
    }
    forall x, y, z | less(x, z) ensures less(x, y) || less(y, z) {
      assert names(x.subjectId, z.subjectId) ==> names(x.subjectId, y.subjectId) || names(y.subjectId, z.subjectId);
    }
  }

  lemma BestAreFirst(collate: (Str, Str) -> int, all: seq<Recommendation>)
    requires G.Collation(collate)
    ensures var sorted := Ordering.Sort(BetterFit(collate), all);
            BestThree(collate, if |sorted| <= 3 then sorted else sorted[..3], all)
  {
    var less := BetterFit(collate);
    var sorted := Ordering.Sort(less, all);
    FitOrder(collate);
    Ordering.SortSorted(less, all);
    var k: nat := if |sorted| <= 3 then |sorted| else 3;
    assert sorted[..|sorted|] == sorted;
    FrontLeads(less, sorted, k);
    LeadersAreBest(collate, less, sorted[..k], all);
  }

  lemma LeadersAreBest(collate: (Str, Str) -> int, less: (Recommendation, Recommendation) -> bool,
                       best: seq<Recommendation>, all: seq<Recommendation>)
    requires forall a, b :: less(a, b) == Fitter(collate, a, b)
    requires |best| == (if |all| < 3 then |all| else 3) && multiset(best) <= multiset(all)
    requires forall i, j | 0 <= i < j < |best| :: !less(best[j], best[i])
    requires forall a, b | multiset(best)[a] < multiset(all)[a] && b in best :: !less(a, b)
    ensures BestThree(collate, best, all)
  {
    forall i, j | 0 <= i < j < |best| ensures !Fitter(collate, best[j], best[i]) {
      assert !less(best[j], best[i]);
    }
    forall a, b | multiset(best)[a] < multiset(all)[a] && b in best ensures !Fitter(collate, a, b) {
      assert !less(a, b);
    }
  }

  /** The candidates in the order they are looked at. */
  function CandidatesOf(db: Db, input: ResolveInput): (r: seq<Str>)
  {
    if input.candidates != [] then input.candidates else ActiveExcept(db.passports, input.subjectId)
  }

  lemma CandidatesAre(db: Db, input: ResolveInput)
    ensures forall c :: IsCandidate(db, input, c) <==> c in CandidatesOf(db, input) && c != input.subjectId
  {
    ActiveOthers(db.passports, input.subjectId);
  }

  /** recommendValidators answers with the best three suitable candidates. */
  lemma RecommendedAreBest(env: Env, db: Db, input: ResolveInput, context: R.Context, policy: R.Policy, now: Str)
    requires G.Collation(env.collate)
    ensures var (db', r) := RecommendValidators(env, db, input, context, policy, now);
            r.Ok? ==>
              && (forall c | IsCandidate(db, input, c) :: c in db'.snapshots)
              && BestThree(env.collate, r.value,
                           Considered(env, db'.snapshots, input.subjectId, CandidatesOf(db, input), context, policy))
  {
    CandidatesAre(db, input);
    CandidatesConsidered(env, db, input.subjectId, CandidatesOf(db, input), context, policy, now);
    var (db', found) := Candidates(env, db, input.subjectId, CandidatesOf(db, input), context, policy, now);
    if found.Ok? {
      BestAreFirst(env.collate, found.value);
    }
  }

  lemma {:induction false} NoneConsidered(env: Env, snapshots: map<Str, SnapshotRow>, exclude: Str,
                                          candidates: seq<Str>, context: R.Context, policy: R.Policy)
    requires forall c | c in candidates && c != exclude :: c in snapshots
    ensures Considered(env, snapshots, exclude, candidates, context, policy) == []
            <==> forall c | c in candidates && c != exclude :: !Suitable(env, snapshots[c], context, policy)
  {
    if candidates != [] {
      assert candidates == [candidates[0]] + candidates[1..];
      NoneConsidered(env, snapshots, exclude, candidates[1..], context, policy);
    }
  }

  /** What the recommendation leaves for the resolution to tell: the snapshots it computed, and whether there is a
      suitable candidate. */
  ghost predicate Recommends(env: Env, db: Db, db': Db, r: Result<seq<Recommendation>>, input: ResolveInput,
                             context: R.Context, policy: R.Policy)
  {
    && db' == db.(snapshots := db'.snapshots)
    && (forall s | s in db.snapshots :: s in db'.snapshots && db'.snapshots[s] == db.snapshots[s])
    && (forall s | s in db'.snapshots && s !in db.snapshots ::
          IsCandidate(db, input, s) && EnsureSubject(db, s).Ok? && db'.snapshots[s].subjectId == s)
    && match r
       case Ok(best) =>
         && (forall c | IsCandidate(db, input, c) :: Reachable(db, c) && c in db'.snapshots)
         && (best == [] <==> forall c | IsCandidate(db, input, c) && c in db'.snapshots ::
                !Suitable(env, db'.snapshots[c], context, policy))
       case Err(e) => exists c | IsCandidate(db, input, c) :: !Reachable(db, c) && EnsureSubject(db, c) == Err(e)
  }

  lemma ConsideredRecommends(env: Env, db: Db, db': Db, found: Result<seq<Recommendation>>,
                             r: Result<seq<Recommendation>>, input: ResolveInput, candidates: seq<Str>,
                             context: R.Context, policy: R.Policy)
    requires forall c :: IsCandidate(db, input, c) <==> c in candidates && c != input.subjectId
    requires Considers(env, db, db', found, input.subjectId, candidates, context, policy)
    requires r.Ok? <==> found.Ok?
    requires if r.Ok? then r.value == [] <==> found.value == [] else r.error == found.error
    ensures Recommends(env, db, db', r, input, context, policy)
  {
    if found.Ok? {
      NoneConsidered(env, db'.snapshots, input.subjectId, candidates, context, policy);
    }
  }

  lemma RecommendationMeans(env: Env, db: Db, input: ResolveInput, context: R.Context, policy: R.Policy, now: Str)
    ensures var (db', r) := RecommendValidators(env, db, input, context, policy, now);
            Recommends(env, db, db', r, input, context, policy)
  {
    var candidates := CandidatesOf(db, input);
    CandidatesAre(db, input);
    CandidatesConsidered(env, db, input.subjectId, candidates, context, policy, now);
    var (db', found) := Candidates(env, db, input.subjectId, candidates, context, policy, now);
    var (db2, r) := RecommendValidators(env, db, input, context, policy, now);
    ConsideredRecommends(env, db, db2, found, r, input, candidates, context, policy);
  }

  // ---------------------------------------------------------------- resolving

  /** The policy asked for, by default the built-in one; the built-in one also when there is no such row. */
  ghost predicate AskedPolicy(env: Env, input: ResolveInput, policy: R.Policy)
  {
    var id := match input.policyId case Some(x) => x case None => env.defaultPolicy.id;
    var version := match input.policyVersion case Some(x) => x case None => env.defaultPolicy.version;
    if (id, version) in env.policies.Keys then policy == env.policies[(id, version)] else policy == env.defaultPolicy
  }

  /** The row of a resolution: score, band, decision and confidence as computed, under the policy's name. */
  ghost predicate Answers(row: ResolutionRow, c: R.Computed, input: ResolveInput, policy: R.Policy, now: Str,
                          resolutionId: Str, traceId: Str)
  {
    && row.resolutionId == resolutionId && row.subjectId == input.subjectId && row.traceId == traceId
    && row.score == c.score && row.band == c.band && row.decision == c.decision && row.confidence == c.confidence
    && row.policyVersion == policy.id + [AT_SIGN] + policy.version && row.createdAt == now
  }

  /** The trace of a resolution: everything that a replay needs. */
  ghost predicate Traces(trace: Trace, row: ResolutionRow, snapshot: SnapshotRow, input: ResolveInput)
  {
    && trace.traceId == row.traceId && trace.subjectId == row.subjectId
    && trace.resolutionId == Some(row.resolutionId) && trace.snapshot == Some(snapshot)
    && trace.context == input.context && trace.policyVersion == row.policyVersion && trace.createdAt == row.createdAt
  }

  /** The two inserts: none under a taken id, only the first under a taken trace id. */
  ghost predicate Inserts(db: Db, db': Db, written: bool, row: ResolutionRow, trace: Trace)
  {
    var taken := row.resolutionId in db.resolutions
                 || exists id :: id in db.resolutions && db.resolutions[id].traceId == row.traceId;
    var traced := exists t :: t in db.traces && t.traceId == trace.traceId;
    && (written <==> !taken && !traced)
    && db'.resolutions == (if taken then db.resolutions else db.resolutions[row.resolutionId := row])
    && db'.traces == (if taken || traced then db.traces else db.traces + [trace])
  }

  /** No candidate that could validate. */
  ghost predicate NoneSuitable(env: Env, db: Db, snapshots: map<Str, SnapshotRow>, input: ResolveInput,
                               context: R.Context, policy: R.Policy)
  {
    forall c | IsCandidate(db, input, c) && c in snapshots :: !Suitable(env, snapshots[c], context, policy)
  }

  /** What is written and answered once subject, policy, snapshot and candidates are there: a repeated id refuses it,
      and a low confidence under high risk does when no candidate could validate, after the fact. */
  ghost predicate Settles(env: Env, db: Db, db': Db, r: Result<ResolutionRow>, input: ResolveInput, policy: R.Policy,
                          snapshot: SnapshotRow, now: Str, resolutionId: Str, traceId: Str)
  {
    var context := env.contextOf(input.context);
    var c := R.ComputeResolution(snapshot.vector, snapshot.counts, context, policy, env.config);
    exists row, trace
      | Answers(row, c, input, policy, now, resolutionId, traceId) && Traces(trace, row, snapshot, input) ::
      exists written | Inserts(db, db', written, row, trace) ::
        r == if !written then Err(ConstraintFailed)
             else if context.risk == R.High && c.confidence < policy.minimumConfidenceHighRisk
               && NoneSuitable(env, db, db'.snapshots, input, context, policy) then Err(LowConfidence)
             else Ok(row)
  }

  /** Snapshots stay, and the subject has one, computed now if there was none. */
  ghost predicate OwnSnapshot(env: Env, db: Db, snapshots': map<Str, SnapshotRow>, subject: Str, now: Str,
                              row: SnapshotRow)
  {
    && (forall s | s in db.snapshots :: s in snapshots' && snapshots'[s] == db.snapshots[s])
    && subject in snapshots' && snapshots'[subject] == row
    && (subject !in db.snapshots ==> row == env.snapshotOf(db, subject, now).(subjectId := subject))
  }

  /** Every candidate has its snapshot or can have it. */
  ghost predicate AllReachable(db: Db, input: ResolveInput)
  {
    forall c | IsCandidate(db, input, c) :: Reachable(db, c)
  }

  /** The error is that of a candidate whose snapshot is missing and cannot be computed. */
  ghost predicate StoppedAt(db: Db, input: ResolveInput, e: Error)
  {
    exists c | IsCandidate(db, input, c) :: !Reachable(db, c) && EnsureSubject(db, c) == Err(e)
  }

  /** resolveTrust: refused for a subject that is not active, and at a candidate whose snapshot is missing and cannot
      be computed; otherwise settled on the subject's snapshot. Snapshots that were missing stay. */
  ghost predicate Resolves(env: Env, db: Db, db': Db, r: Result<ResolutionRow>, input: ResolveInput, now: Str,
                           resolutionId: Str, traceId: Str)
  {
    var subject := EnsureSubject(db, input.subjectId);
    if subject.Err? then r == Err(subject.error) && db' == db
    else
      && db' == db.(snapshots := db'.snapshots, resolutions := db'.resolutions, traces := db'.traces)
      && exists policy, row | AskedPolicy(env, input, policy)
                              && OwnSnapshot(env, db, db'.snapshots, input.subjectId, now, row) ::
           if AllReachable(db, input) then
             && (forall c | IsCandidate(db, input, c) :: c in db'.snapshots)
             && Settles(env, db, db', r, input, policy, row, now, resolutionId, traceId)
           else
             && db'.resolutions == db.resolutions && db'.traces == db.traces
             && r.Err? && StoppedAt(db, input, r.error)
  }

  lemma InsertsMean(db: Db, row: ResolutionRow, trace: Trace)
    ensures var (db', r) := InsertResolution(db, row, trace);
            && Inserts(db, db', r.Ok?, row, trace) && (r.Err? ==> r.error == ConstraintFailed)
            && db' == db.(resolutions := db'.resolutions, traces := db'.traces)
  {
  }

  lemma AnswersMean(env: Env, input: ResolveInput, policy: R.Policy, snapshot: SnapshotRow, c: R.Computed, now: Str,
                    resolutionId: Str, traceId: Str, row: ResolutionRow, trace: Trace)
    requires row == T.ResolutionOf(resolutionId, input.subjectId, c, traceId, policy, now)
    requires trace == T.TraceOf(traceId, input.subjectId, resolutionId, snapshot, input.context, policy, now)
    ensures Answers(row, c, input, policy, now, resolutionId, traceId) && Traces(trace, row, snapshot, input)
  {
  }

  /** The end of a resolution, after the recommendation. */
  lemma SettlesWith(env: Env, db: Db, db2: Db, db': Db, r: Result<ResolutionRow>, input: ResolveInput,
                    policy: R.Policy, snapshot: SnapshotRow, now: Str, resolutionId: Str, traceId: Str,
                    context: R.Context, c: R.Computed, none: bool, row: ResolutionRow, trace: Trace)
    requires context == env.contextOf(input.context)
    requires c == R.ComputeResolution(snapshot.vector, snapshot.counts, context, policy, env.config)
    requires db2 == db.(snapshots := db2.snapshots)
    requires none <==> NoneSuitable(env, db, db2.snapshots, input, context, policy)
    requires row == T.ResolutionOf(resolutionId, input.subjectId, c, traceId, policy, now)
    requires trace == T.TraceOf(traceId, input.subjectId, resolutionId, snapshot, input.context, policy, now)
    requires db' == InsertResolution(db2, row, trace).0
    requires r == if InsertResolution(db2, row, trace).1.Err? then Err(InsertResolution(db2, row, trace).1.error)
                  else if context.risk == R.High && c.confidence < policy.minimumConfidenceHighRisk && none
                    then Err(LowConfidence) else Ok(row)
    ensures Settles(env, db, db', r, input, policy, snapshot, now, resolutionId, traceId)
  {
    InsertsMean(db2, row, trace);
    AnswersMean(env, input, policy, snapshot, c, now, resolutionId, traceId, row, trace);
    assert Inserts(db, db', InsertResolution(db2, row, trace).1.Ok?, row, trace);
  }

  lemma PolicyIsAsked(env: Env, input: ResolveInput)
    ensures AskedPolicy(env, input, GetPolicy(env, OrElse(input.policyId, env.defaultPolicy.id),
                                              OrElse(input.policyVersion, env.defaultPolicy.version)))
  {
  }

  /** The tables with the subject's own snapshot read first. */
  ghost predicate OwnRead(env: Env, db: Db, db1: Db, subject: Str, now: Str, row: SnapshotRow)
  {
    db1 == db.(snapshots := db1.snapshots) && ReadsSnapshot(env, db, db1.snapshots, subject, now, row)
  }

  lemma CandidatesAfterOwn(env: Env, db: Db, db1: Db, input: ResolveInput, now: Str, row: SnapshotRow)
    requires OwnRead(env, db, db1, input.subjectId, now, row)
    ensures forall c :: IsCandidate(db1, input, c) <==> IsCandidate(db, input, c)
    ensures forall c | IsCandidate(db, input, c) :: Reachable(db1, c) <==> Reachable(db, c)
    ensures forall c :: EnsureSubject(db1, c) == EnsureSubject(db, c)
  {
  }

  lemma OwnKept(env: Env, db: Db, db1: Db, db2: Db, r: Result<seq<Recommendation>>, input: ResolveInput,
                policy: R.Policy, row: SnapshotRow, now: Str)
    requires OwnRead(env, db, db1, input.subjectId, now, row)
    requires Recommends(env, db1, db2, r, input, env.contextOf(input.context), policy)
    ensures OwnSnapshot(env, db, db2.snapshots, input.subjectId, now, row)
    ensures db2 == db.(snapshots := db2.snapshots)
    ensures r.Ok? ==> AllReachable(db, input) && forall c | IsCandidate(db, input, c) :: c in db2.snapshots
    ensures r.Err? ==> StoppedAt(db, input, r.error) && !AllReachable(db, input)
  {
    CandidatesAfterOwn(env, db, db1, input, now, row);
    if r.Err? {
      var c :| IsCandidate(db1, input, c) && !Reachable(db1, c) && EnsureSubject(db1, c) == Err(r.error);
      assert IsCandidate(db, input, c) && !Reachable(db, c);
    }
  }

  /** A resolution that no candidate stops. */
  lemma ResolvesOn(env: Env, db: Db, db2: Db, db': Db, r: Result<ResolutionRow>, input: ResolveInput,
                   policy: R.Policy, row: SnapshotRow, now: Str, resolutionId: Str, traceId: Str)
    requires EnsureSubject(db, input.subjectId).Ok?
    requires OwnSnapshot(env, db, db2.snapshots, input.subjectId, now, row) && AllReachable(db, input)
    requires db2 == db.(snapshots := db2.snapshots) && forall c | IsCandidate(db, input, c) :: c in db2.snapshots
    requires AskedPolicy(env, input, policy)
    requires db' == db2.(resolutions := db'.resolutions, traces := db'.traces)
    requires Settles(env, db, db', r, input, policy, row, now, resolutionId, traceId)
    ensures Resolves(env, db, db', r, input, now, resolutionId, traceId)
  {
  }

  /** A resolution that a candidate stops. */
  lemma ResolvesNot(env: Env, db: Db, db2: Db, e: Error, input: ResolveInput, policy: R.Policy, row: SnapshotRow,
                    now: Str, resolutionId: Str, traceId: Str)
    requires EnsureSubject(db, input.subjectId).Ok?
    requires OwnSnapshot(env, db, db2.snapshots, input.subjectId, now, row) && !AllReachable(db, input)
    requires StoppedAt(db, input, e) && db2 == db.(snapshots := db2.snapshots) && AskedPolicy(env, input, policy)
    ensures Resolves(env, db, db2, Err(e), input, now, resolutionId, traceId)
  {
  }

  lemma NoneIsEmpty(env: Env, db: Db, db1: Db, db2: Db, best: seq<Recommendation>, input: ResolveInput,
                    policy: R.Policy, row: SnapshotRow, now: Str)
    requires OwnRead(env, db, db1, input.subjectId, now, row)
    requires Recommends(env, db1, db2, Ok(best), input, env.contextOf(input.context), policy)
    ensures best == [] <==> NoneSuitable(env, db, db2.snapshots, input, env.contextOf(input.context), policy)
  {
    CandidatesAfterOwn(env, db, db1, input, now, row);
  }

  /** The end of a resolution, whatever the pieces before it are. */
  lemma ResolvesFrom(env: Env, db: Db, db1: Db, db2: Db, recommended: Result<seq<Recommendation>>, input: ResolveInput,
                     policy: R.Policy, row: SnapshotRow, now: Str, resolutionId: Str, traceId: Str, c: R.Computed,
                     resolution: ResolutionRow, trace: Trace, db': Db, r: Result<ResolutionRow>)
    requires EnsureSubject(db, input.subjectId).Ok? && OwnRead(env, db, db1, input.subjectId, now, row)
    requires Recommends(env, db1, db2, recommended, input, env.contextOf(input.context), policy)
    requires AskedPolicy(env, input, policy)
    requires c == R.ComputeResolution(row.vector, row.counts, env.contextOf(input.context), policy, env.config)
    requires resolution == T.ResolutionOf(resolutionId, input.subjectId, c, traceId, policy, now)
    requires trace == T.TraceOf(traceId, input.subjectId, resolutionId, row, input.context, policy, now)
    requires if recommended.Err? then db' == db2 && r == Err(recommended.error)
             else
               var (inserted, done) := InsertResolution(db2, resolution, trace);
               && db' == inserted
               && r == if done.Err? then Err(done.error)
                       else if env.contextOf(input.context).risk == R.High
                         && c.confidence < policy.minimumConfidenceHighRisk && recommended.value == [] then
                         Err(LowConfidence)
                       else Ok(resolution)
    ensures Resolves(env, db, db', r, input, now, resolutionId, traceId)
  {
    OwnKept(env, db, db1, db2, recommended, input, policy, row, now);
    if recommended.Err? {
      ResolvesNot(env, db, db2, recommended.error, input, policy, row, now, resolutionId, traceId);
    } else {
      NoneIsEmpty(env, db, db1, db2, recommended.value, input, policy, row, now);
      InsertsMean(db2, resolution, trace);
      SettlesWith(env, db, db2, db', r, input, policy, row, now, resolutionId, traceId, env.contextOf(input.context), c,
                  recommended.value == [], resolution, trace);
      ResolvesOn(env, db, db2, db', r, input, policy, row, now, resolutionId, traceId);
    }
  }

  lemma ResolutionIsResolved(env: Env, db: Db, input: ResolveInput, now: Str, resolutionId: Str, traceId: Str)
    ensures var (db', r) := ResolveTrust(env, db, input, now, resolutionId, traceId);
            Resolves(env, db, db', r, input, now, resolutionId, traceId)
  {
    if EnsureSubject(db, input.subjectId).Ok? {
      var policy := GetPolicy(env, OrElse(input.policyId, env.defaultPolicy.id),
                              OrElse(input.policyVersion, env.defaultPolicy.version));
      PolicyIsAsked(env, input);
      SnapshotIsRead(env, db, input.subjectId, now);
      var (db1, row) := SnapshotFor(env, db, input.subjectId, now);
      ResolutionAfter(env, db, input, now, resolutionId, traceId, policy, db1, row.value);
    }
  }

  lemma ResolutionAfter(env: Env, db: Db, input: ResolveInput, now: Str, resolutionId: Str, traceId: Str,
                        policy: R.Policy, db1: Db, row: SnapshotRow)
    requires EnsureSubject(db, input.subjectId).Ok? && AskedPolicy(env, input, policy)
    requires policy == GetPolicy(env, OrElse(input.policyId, env.defaultPolicy.id),
                                 OrElse(input.policyVersion, env.defaultPolicy.version))
    requires SnapshotFor(env, db, input.subjectId, now) == (db1, Ok(row))
    requires OwnRead(env, db, db1, input.subjectId, now, row)
    ensures var (db', r) := ResolveTrust(env, db, input, now, resolutionId, traceId);
            Resolves(env, db, db', r, input, now, resolutionId, traceId)
  {
    var context := env.contextOf(input.context);
    var c := R.ComputeResolution(row.vector, row.counts, context, policy, env.config);
    var (db2, recommended) := RecommendValidators(env, db1, input, context, policy, now);
    RecommendationMeans(env, db1, input, context, policy, now);
    var (db', r) := ResolveTrust(env, db, input, now, resolutionId, traceId);
    ResolvesFrom(env, db, db1, db2, recommended, input, policy, row, now, resolutionId, traceId, c,
                 T.ResolutionOf(resolutionId, input.subjectId, c, traceId, policy, now),
                 T.TraceOf(traceId, input.subjectId, resolutionId, row, input.context, policy, now), db', r);
  }

  // ---------------------------------------------------------------- importing

  /** The bundle's snapshot is taken over where there is none and in mirror mode; otherwise the snapshot is computed
      again, with the imported evidence, just if some was imported. */
  ghost predicate TakesOver(env: Env, db: Db, db': Db, r: Result<()>, b: Bundle, mirror: bool, imported: int, now: Str)
  {
    var known := b.subject.subjectId in db.snapshots;
    && db' == db.(snapshots := db'.snapshots)
    && (mirror || !known ==> r.Ok? && db'.snapshots == db.snapshots[b.snapshot.subjectId := b.snapshot])
    && (!mirror && known && imported <= 0 ==> r.Ok? && db' == db)
    && (!mirror && known && imported > 0 && EnsureSubject(db, b.subject.subjectId).Ok? ==>
          r.Ok? && Recomputes(env, db, b.subject.subjectId, now, db.snapshots, db'.snapshots))
    && (!mirror && known && imported > 0 && EnsureSubject(db, b.subject.subjectId).Err? ==>
          r.Err? && r.error == EnsureSubject(db, b.subject.subjectId).error && db' == db)
  }

  lemma SnapshotTakesOver(env: Env, db: Db, b: Bundle, mirror: bool, imported: int, now: Str)
    ensures var (db', r) := ImportSnapshot(env, db, b, mirror, imported, now);
            TakesOver(env, db, db', r, b, mirror, imported, now)
  {
  }

  /** The receipt is stored as an import under its id, which has to be new, unless the snapshot stopped it. */
  ghost predicate Ends(db: Db, db1: Db, taken: Result<()>, db': Db, r: Result<int>, b: Bundle, grown: int)
  {
    if taken.Err? then db' == db1 && r == Err(taken.error)
    else if b.receipt.receiptId in db.receipts then db' == db1 && r == Err(ConstraintFailed)
    else
      && r == Ok(grown)
      && db' == db1.(receipts := db.receipts[b.receipt.receiptId :=
                                               ReceiptRow(b.subject.subjectId, Import, b.receipt.targetNetwork,
                                                          BundleHash(b), b.receipt.signature)])
  }

  /** The tables with the bundle's evidence imported, and how much that is. */
  function WithEvidence(db: Db, b: Bundle): Db
  {
    db.(evidence := L.ImportAll(db.evidence, b.evidence))
  }

  function Growth(db: Db, b: Bundle): int
  {
    |WithEvidence(db, b).evidence.rows| - |db.evidence.rows|
  }

  /** The part of an import after the passport: the evidence that was not known, the snapshot, and the receipt. The
      answer is how much the log grew. */
  ghost predicate Contents(env: Env, db: Db, db': Db, r: Result<int>, b: Bundle, mirror: bool, now: Str)
  {
    exists db1: Db, taken: Result<()>
      | TakesOver(env, WithEvidence(db, b), db1, taken, b, mirror, Growth(db, b), now) ::
      Ends(db, db1, taken, db', r, b, Growth(db, b))
  }

  lemma ContentsFrom(env: Env, db: Db, db1: Db, taken: Result<()>, db': Db, r: Result<int>, b: Bundle, mirror: bool,
                     now: Str)
    requires TakesOver(env, WithEvidence(db, b), db1, taken, b, mirror, Growth(db, b), now)
    requires Ends(db, db1, taken, db', r, b, Growth(db, b))
    ensures Contents(env, db, db', r, b, mirror, now)
  {
  }

  lemma CountIsGrowth(db: Db, b: Bundle)
    ensures L.ImportCount(db.evidence, b.evidence) == Growth(db, b)
  {
    L.ImportCountIsGrowth(db.evidence, b.evidence);
  }

  lemma ContentsMean(env: Env, db: Db, b: Bundle, mirror: bool, now: Str)
    ensures var (db', r) := ImportContents(env, db, b, mirror, now);
            Contents(env, db, db', r, b, mirror, now)
  {
    var (db1, taken) := ImportSnapshot(env, WithEvidence(db, b), b, mirror, Growth(db, b), now);
    SnapshotTakesOver(env, WithEvidence(db, b), b, mirror, Growth(db, b), now);
    ContentsEnd(env, db, b, mirror, now, db1, taken);
    var (db', r) := ImportContents(env, db, b, mirror, now);
    ContentsFrom(env, db, db1, taken, db', r, b, mirror, now);
  }

  lemma ContentsEnd(env: Env, db: Db, b: Bundle, mirror: bool, now: Str, db1: Db, taken: Result<()>)
    requires ImportSnapshot(env, WithEvidence(db, b), b, mirror, Growth(db, b), now) == (db1, taken)
    requires db1.receipts == db.receipts
    ensures var (db', r) := ImportContents(env, db, b, mirror, now);
            Ends(db, db1, taken, db', r, b, Growth(db, b))
  {
    CountIsGrowth(db, b);
    BesideEnds(env, db, L.ImportAll(db.evidence, b.evidence), Growth(db, b), b, mirror, now, db1, taken);
  }

  lemma BesideEnds(env: Env, db: Db, evidence: L.Tables, imported: int, b: Bundle, mirror: bool, now: Str, db1: Db,
                   taken: Result<()>)
    requires ImportSnapshot(env, db.(evidence := evidence), b, mirror, imported, now) == (db1, taken)
    requires db1.receipts == db.receipts
    ensures ImportBeside(env, db, evidence, imported, b, mirror, now)
         == if taken.Err? then (db1, Err(taken.error))
            else if b.receipt.receiptId in db.receipts then (db1, Err(ConstraintFailed))
            else
              (db1.(receipts := db.receipts[b.receipt.receiptId :=
                                              ReceiptRow(b.subject.subjectId, Import, b.receipt.targetNetwork,
                                                         BundleHash(b), b.receipt.signature)]),
               Ok(imported))
  {
  }

  /** The passport part: nothing for a registered subject, otherwise a registration under the bundle's own key. */
  ghost predicate Admits(env: Env, st: Store, st1: Store, r: Result<()>, b: Bundle, now: Str, passportId: Str)
  {
    if Registered(st.app.passports, b.subject.subjectId) then st1 == st && r == Ok(())
    else
      var (stored, reply) := I.Step(st, ImportCall(env, b, now, passportId));
      && st1 == stored
      && match reply
         case Response(_) => r == Ok(())
         case Conflict => r == Err(IdempotencyConflict)
         case Failure(e) => r == Err(e)
  }

  /** importTrustBundle: refused for a receipt that does not verify and where the subject cannot be registered;
      otherwise the contents. */
  ghost predicate TakesIn(env: Env, st: Store, st': Store, r: Result<int>, b: Bundle, mirror: bool, now: Str,
                          passportId: Str)
  {
    if HmacSha256(env.signingKey, BundleHash(b)) != b.receipt.signature then st' == st && r == Err(InvalidRequest)
    else
      exists st1: I.Store<Db>, admitted: Result<()> | Admits(env, st, st1, admitted, b, now, passportId) ::
        if admitted.Err? then st' == st1 && r == Err(admitted.error)
        else st' == st1.(app := st'.app) && Contents(env, st1.app, st'.app, r, b, mirror, now)
  }

  lemma RegistrationAdmits(env: Env, st: Store, b: Bundle, now: Str, passportId: Str, call: I.Call<Db, Error>)
    requires call == ImportCall(env, b, now, passportId)
    ensures var (st1, r) := RegisterUnlessKnown(st, b.subject.subjectId, call);
            Admits(env, st, st1, r, b, now, passportId)
  {
    FindsFirst(st.app.passports, b.subject.subjectId);
  }

  lemma ImportTakesIn(env: Env, st: Store, b: Bundle, mirror: bool, now: Str, passportId: Str)
    ensures var (st', r) := ImportTrustBundle(env, st, b, mirror, now, passportId);
            TakesIn(env, st, st', r, b, mirror, now, passportId)
  {
    var call := ImportCall(env, b, now, passportId);
    var (st1, admitted) := RegisterUnlessKnown(st, b.subject.subjectId, call);
    RegistrationAdmits(env, st, b, now, passportId, call);
    ContentsMean(env, st1.app, b, mirror, now);
    VerifiedTakesIn(env, st, b, mirror, now, passportId, call, st1, admitted);
  }

  lemma VerifiedTakesIn(env: Env, st: Store, b: Bundle, mirror: bool, now: Str, passportId: Str,
                        call: I.Call<Db, Error>, st1: Store, admitted: Result<()>)
    requires call == ImportCall(env, b, now, passportId)
    requires RegisterUnlessKnown(st, b.subject.subjectId, call) == (st1, admitted)
    requires Admits(env, st, st1, admitted, b, now, passportId)
    requires var (db', r) := ImportContents(env, st1.app, b, mirror, now);
             Contents(env, st1.app, db', r, b, mirror, now)
    ensures var (st', r) := ImportTrustBundle(env, st, b, mirror, now, passportId);
            TakesIn(env, st, st', r, b, mirror, now, passportId)
  {
  }

  // ---------------------------------------------------------------- registering and rotating keys

  /** What refuses a registration before anything is written: a malformed request, then a known subject or DID, then
      a taken passport id or an empty DID given twice. */
  ghost predicate Refuses(db: Db, input: PassportInput, passportId: Str, refusal: Option<Error>)
  {
    var sameDid := input.did.Some? && exists p :: p in db.passports && p.did == input.did;
    refusal == if input.subjectId == [] || input.subjectType == Unlisted then Some(InvalidRequest)
               else if (sameDid && input.did != Some([])) || Registered(db.passports, input.subjectId) then
                 Some(ConflictingEvidence)
               else if sameDid || exists p :: p in db.passports && p.passportId == passportId then
                 Some(ConstraintFailed)
               else None
  }

  /** createPassport writes nothing where it is refused, and the passport otherwise. */
  ghost predicate RegistersOrRefuses(db: Db, outcome: I.Outcome<Db, Error>, input: PassportInput, now: Str,
                                     passportId: Str)
  {
    exists refusal | Refuses(db, input, passportId, refusal) ::
      match refusal
      case Some(e) => outcome == I.Threw(db, e)
      case None =>
        && outcome.state.passports
           == db.passports + [Passport(passportId, input.subjectId, input.subjectType, input.did, Active,
                                       input.issuerId, input.metadata, now)]
        && (outcome.Threw? ==> outcome.error == ConstraintFailed)
        && (outcome.Returned? ==> outcome.response == Arr([Json.Text(passportId), Json.Text(input.subjectId)]))
  }

  lemma RegistrationRefuses(db: Db, input: PassportInput, now: Str, passportId: Str)
    ensures RegistersOrRefuses(db, CreatePassport(db, input, now, passportId), input, now, passportId)
  {
    FindsFirst(db.passports, input.subjectId);
    var sameDid := input.did.Some? && exists p :: p in db.passports && p.did == input.did;
    var refusal :=
      if input.subjectId == [] || input.subjectType == Unlisted then Some(InvalidRequest)
      else if (sameDid && input.did != Some([])) || Registered(db.passports, input.subjectId) then
        Some(ConflictingEvidence)
      else if sameDid || exists p :: p in db.passports && p.passportId == passportId then Some(ConstraintFailed)
      else None;
    assert Refuses(db, input, passportId, refusal);
  }

  /** rotatePassportKey: one more key for an active subject that does not have its key id, and the metadata of its
      passport replaced. */
  ghost predicate Rotates(db: Db, db': Db, r: Result<()>, subject: Str, key: K.PublicKey, metadata: JsonValue, now: Str)
  {
    match EnsureSubject(db, subject)
    case Err(e) => r == Err(e) && db' == db
    case Ok(p) =>
      if exists k :: k in db.credentials.keys && k.passportId == p.passportId && k.key.kid == key.kid then
        r == Err(ConflictingEvidence) && db' == db
      else
        && r == Ok(())
        && db' == db.(passports := db'.passports, credentials := db'.credentials)
        && db'.credentials
           == db.credentials.(keys := db.credentials.keys + [K.KeyRow(p.passportId, key, now)])
        && |db'.passports| == |db.passports|
        && forall i | 0 <= i < |db.passports| ::
             db'.passports[i] == if db.passports[i].passportId == p.passportId
                                 then db.passports[i].(metadata := metadata) else db.passports[i]
  }

  lemma RotationMeans(db: Db, subject: Str, key: K.PublicKey, metadata: JsonValue, now: Str)
    ensures var (db', r) := RotateKey(db, subject, key, metadata, now);
            Rotates(db, db', r, subject, key, metadata, now)
  {
  }
}
