/** What the evidence of an exported bundle is like, and what importing it into other tables does. */
module EvidenceTransfer {
  import opened Utf16
  import opened CanonicalForm
  import opened EvidenceLog
  import Ordering

  /** a is listed before b. */
  predicate Before(a: Evidence, b: Evidence)
  {
    Less(b.createdAt, a.createdAt) || (a.createdAt == b.createdAt && Less(b.evidenceId, a.evidenceId))
  }

  /** The content hash of a read-back evidence. */
  function ContentHash(): Evidence -> Digest
  {
    (e: Evidence) => Fingerprint(AsInput(e))
  }

  /** Evidence of one subject, newest first, without repeated ids or content hashes. */
  ghost predicate ListedBy(hash: Evidence -> Digest, es: seq<Evidence>, subject: Str)
  {
    && (forall i | 0 <= i < |es| :: es[i].subjectId == subject && Settled(es[i]))
    && (forall i, j | 0 <= i < j < |es| ::
          Before(es[i], es[j]) && es[i].evidenceId != es[j].evidenceId && hash(es[i]) != hash(es[j]))
  }

  /** What every listing, and every front part of one, is like. */
  ghost predicate Listed(es: seq<Evidence>, subject: Str)
  {
    ListedBy(ContentHash(), es, subject)
  }

  lemma ListedPrefix(hash: Evidence -> Digest, es: seq<Evidence>, subject: Str, n: nat)
    requires ListedBy(hash, es, subject) && n <= |es|
    ensures ListedBy(hash, es[..n], subject)
  {
  }

  // ---------------------------------------------------------------- the order of rows

  lemma LessAsymmetric(a: Str, b: Str)
    ensures !(Less(a, b) && Less(b, a))
  {
    if Less(a, b) && Less(b, a) {
      LessTransitive(a, b, a);
      LessIrreflexive(a);
    }
  }

  lemma RowOrder()
    ensures Ordering.WeakOrder(NewestFirst())
  {
    var less := NewestFirst();
    forall x ensures !less(x, x) {
      LessIrreflexive(x.createdAt);
      LessIrreflexive(x.evidenceId);
    }
    LessIsOrder();
    forall x, y, z | less(x, y) && less(y, z) ensures less(x, z) {
      assert Less(z.createdAt, y.createdAt) && Less(y.createdAt, x.createdAt) ==> Less(z.createdAt, x.createdAt);
      assert Less(z.evidenceId, y.evidenceId) && Less(y.evidenceId, x.evidenceId) ==> Less(z.evidenceId, x.evidenceId);
    }
    forall x, y, z | less(x, z) ensures less(x, y) || less(y, z) {
      if x.createdAt != y.createdAt { LessTotal(x.createdAt, y.createdAt); }
      if y.createdAt != z.createdAt { LessTotal(y.createdAt, z.createdAt); }
      assert Less(z.createdAt, x.createdAt) ==> Less(z.createdAt, y.createdAt) || Less(y.createdAt, x.createdAt);
      assert Less(z.evidenceId, x.evidenceId) ==> Less(z.evidenceId, y.evidenceId) || Less(y.evidenceId, x.evidenceId);
      assert Less(x.createdAt, y.createdAt) && Less(y.createdAt, z.createdAt) ==> Less(x.createdAt, z.createdAt);
      LessAsymmetric(x.createdAt, z.createdAt);
    }
  }

  lemma RowsWithDistinctIdsCompare(a: EvidenceRow, b: EvidenceRow)
    requires a.evidenceId != b.evidenceId
    ensures NewestFirst()(a, b) || NewestFirst()(b, a)
  {
    LessTotal(a.evidenceId, b.evidenceId);
    if a.createdAt != b.createdAt { LessTotal(a.createdAt, b.createdAt); }
  }

  predicate DistinctIds(rows: seq<EvidenceRow>)
  {
    forall i, j | 0 <= i < j < |rows| :: rows[i].evidenceId != rows[j].evidenceId
  }

  lemma {:induction false} RowsForDistinct(rows: seq<EvidenceRow>, subject: Str)
    requires DistinctIds(rows)
    ensures DistinctIds(RowsFor(rows, subject))
  {
    if rows != [] {
      var front, last := rows[..|rows| - 1], rows[|rows| - 1];
      RowsForDistinct(front, subject);
      var kept := RowsFor(front, subject);
      forall i | 0 <= i < |kept| ensures kept[i].evidenceId != last.evidenceId {
        assert kept[i] in front;
      }
    }
  }

  lemma {:induction false} DistinctOnce(rows: seq<EvidenceRow>, x: EvidenceRow)
    requires DistinctIds(rows)
    ensures multiset(rows)[x] <= 1
  {
    if rows != [] {
      assert rows == [rows[0]] + rows[1..];
      DistinctOnce(rows[1..], x);
      if rows[0] == x {
        assert x !in rows[1..];
        assert multiset(rows[1..])[x] == 0;
      }
    }
  }

  lemma TwicePresent<T>(s: seq<T>, i: nat, j: nat)
    requires i < j < |s| && s[i] == s[j]
    ensures multiset(s)[s[i]] >= 2
  {
    assert s == s[..j] + s[j..];
    assert s[..j][i] == s[i] && s[j..][0] == s[i];
    assert multiset(s[..j])[s[i]] >= 1 && multiset(s[j..])[s[i]] >= 1;
  }

  /** Rows as listEvidence selects and sorts them. */
  ghost predicate RowsListed(rows: seq<EvidenceRow>)
  {
    forall i, j | 0 <= i < j < |rows| ::
      NewestFirst()(rows[i], rows[j]) && rows[i].evidenceId != rows[j].evidenceId && rows[i].hash != rows[j].hash
  }

  lemma SortedRowsDiffer(all: seq<EvidenceRow>, sorted: seq<EvidenceRow>, i: nat, j: nat)
    requires DistinctIds(all) && (forall a, b | 0 <= a < b < |all| :: all[a].hash != all[b].hash)
    requires i < j < |sorted| && multiset(sorted)[sorted[i]] <= 1
    requires sorted[i] in all && sorted[j] in all
    ensures sorted[i].evidenceId != sorted[j].evidenceId && sorted[i].hash != sorted[j].hash
  {
    var a :| 0 <= a < |all| && all[a] == sorted[i];
    var b :| 0 <= b < |all| && all[b] == sorted[j];
    if a == b {
      TwicePresent(sorted, i, j);
    }
  }

  lemma SelectedRowsListed(t: Tables, subject: Str)
    requires RowsUnique(t)
    ensures var sorted := Ordering.Sort(NewestFirst(), RowsFor(t.rows, subject));
            RowsListed(sorted) && forall r | r in sorted :: r in t.rows && r.subjectId == subject
  {
    var rows := RowsFor(t.rows, subject);
    var sorted := Ordering.Sort(NewestFirst(), rows);
    RowsForDistinct(t.rows, subject);
    RowOrder();
    Ordering.SortSorted(NewestFirst(), rows);
    forall r | r in sorted ensures r in t.rows && r.subjectId == subject {
      assert r in multiset(rows);
    }
    forall i, j | 0 <= i < j < |sorted|
      ensures NewestFirst()(sorted[i], sorted[j]) && sorted[i].evidenceId != sorted[j].evidenceId
              && sorted[i].hash != sorted[j].hash
    {
      DistinctOnce(rows, sorted[i]);
      SortedRowsDiffer(t.rows, sorted, i, j);
      RowsWithDistinctIdsCompare(sorted[i], sorted[j]);
    }
  }

  // ---------------------------------------------------------------- listings

  /** A row and the evidence it reads as. */
  ghost predicate Matches(hash: Evidence -> Digest, row: EvidenceRow, e: Evidence)
  {
    row.evidenceId == e.evidenceId && row.subjectId == e.subjectId && row.createdAt == e.createdAt
    && row.hash == hash(e)
  }

  ghost predicate AllMatch(hash: Evidence -> Digest, rows: seq<EvidenceRow>, es: seq<Evidence>)
  {
    |rows| == |es| && forall i | 0 <= i < |rows| :: Matches(hash, rows[i], es[i])
  }

  lemma MatchingRowsListed(hash: Evidence -> Digest, rows: seq<EvidenceRow>, es: seq<Evidence>, subject: Str)
    requires AllMatch(hash, rows, es)
    requires forall i | 0 <= i < |es| :: es[i].subjectId == subject && Settled(es[i])
    ensures RowsListed(rows) <==> ListedBy(hash, es, subject)
  {
    if RowsListed(rows) {
      forall i, j | 0 <= i < j < |es|
        ensures Before(es[i], es[j]) && es[i].evidenceId != es[j].evidenceId && hash(es[i]) != hash(es[j])
      {
        assert Matches(hash, rows[i], es[i]) && Matches(hash, rows[j], es[j]);
        assert NewestFirst()(rows[i], rows[j]);
      }
    }
    if ListedBy(hash, es, subject) {
      forall i, j | 0 <= i < j < |rows|
        ensures NewestFirst()(rows[i], rows[j]) && rows[i].evidenceId != rows[j].evidenceId
                && rows[i].hash != rows[j].hash
      {
        assert Matches(hash, rows[i], es[i]) && Matches(hash, rows[j], es[j]);
        assert Before(es[i], es[j]);
      }
    }
  }

  lemma ReadMatches(t: Tables, row: EvidenceRow)
    requires HashesAgree(t) && RowsSettled(t) && row in t.rows
    ensures Matches(ContentHash(), row, ToEvidence(t, row)) && Settled(ToEvidence(t, row))
  {
    var a :| 0 <= a < |t.rows| && t.rows[a] == row;
  }

  lemma ReadAllMatches(t: Tables, rows: seq<EvidenceRow>)
    requires HashesAgree(t) && RowsSettled(t) && forall r | r in rows :: r in t.rows
    ensures AllMatch(ContentHash(), rows, ReadAll(t, rows))
    ensures forall i | 0 <= i < |rows| :: Settled(ReadAll(t, rows)[i])
  {
    forall i | 0 <= i < |rows|
      ensures Matches(ContentHash(), rows[i], ReadAll(t, rows)[i]) && Settled(ReadAll(t, rows)[i])
    {
      ReadMatches(t, rows[i]);
    }
  }

  /** listEvidence yields a listing. */
  lemma ListIsListed(t: Tables, subject: Str)
    requires IndexAgrees(t)
    ensures Listed(ListEvidence(t, subject), subject)
  {
    SelectedRowsListed(t, subject);
    var sorted := Ordering.Sort(NewestFirst(), RowsFor(t.rows, subject));
    ReadAllMatches(t, sorted);
    ListedFromRows(ContentHash(), sorted, ReadAll(t, sorted), subject);
  }

  lemma ListedFromRows(hash: Evidence -> Digest, rows: seq<EvidenceRow>, es: seq<Evidence>, subject: Str)
    requires AllMatch(hash, rows, es) && RowsListed(rows)
    requires (forall r | r in rows :: r.subjectId == subject) && forall i | 0 <= i < |es| :: Settled(es[i])
    ensures ListedBy(hash, es, subject)
  {
    forall i | 0 <= i < |es| ensures es[i].subjectId == subject {
      assert Matches(hash, rows[i], es[i]) && rows[i] in rows;
    }
    MatchingRowsListed(hash, rows, es, subject);
  }

  // ---------------------------------------------------------------- importing a listing

  /** No trace of the evidence or its subject in the tables. */
  ghost predicate Unknown(t: Tables, es: seq<Evidence>, subject: Str)
  {
    && (forall i | 0 <= i < |t.rows| :: t.rows[i].subjectId != subject)
    && (forall i | 0 <= i < |es| :: !HasId(t, es[i].evidenceId))
  }

  /** Evidence of different subjects has different content. */
  lemma ForeignHash(t: Tables, i: nat, e: Evidence)
    requires HashesAgree(t) && i < |t.rows| && t.rows[i].subjectId != e.subjectId
    ensures t.rows[i].hash != ContentHash()(e)
  {
    FingerprintIdentifiesContent(AsInput(ToEvidence(t, t.rows[i])), AsInput(e));
  }

  lemma ForeignHashes(t: Tables, subject: Str, e: Evidence)
    requires HashesAgree(t) && e.subjectId == subject && forall i | 0 <= i < |t.rows| :: t.rows[i].subjectId != subject
    ensures forall i | 0 <= i < |t.rows| :: t.rows[i].hash != ContentHash()(e)
  {
    forall i | 0 <= i < |t.rows| ensures t.rows[i].hash != ContentHash()(e) {
      ForeignHash(t, i, e);
    }
  }

  function Reader(t: Tables): EvidenceRow -> Evidence
  {
    (row: EvidenceRow) => ToEvidence(t, row)
  }

  /** Neither the id nor the content hash of e is in the rows. */
  ghost predicate IsNew(rows: seq<EvidenceRow>, e: Evidence, hash: Evidence -> Digest)
  {
    forall i | 0 <= i < |rows| :: rows[i].evidenceId != e.evidenceId && rows[i].hash != hash(e)
  }

  /** t' is t and one more row, which matches e and reads back as e; the others read as before. */
  ghost predicate AddsRow(t: Tables, t': Tables, e: Evidence, hash: Evidence -> Digest,
                          read: Tables -> (EvidenceRow -> Evidence))
  {
    && |t'.rows| == |t.rows| + 1 && t'.rows[..|t.rows|] == t.rows
    && Matches(hash, t'.rows[|t.rows|], e) && read(t')(t'.rows[|t.rows|]) == e
    && forall i | 0 <= i < |t.rows| :: read(t')(t.rows[i]) == read(t)(t.rows[i])
  }

  lemma AppendAddsRow(t: Tables, t': Tables, row: EvidenceRow, e: Evidence, hash: Evidence -> Digest,
                      read: Tables -> (EvidenceRow -> Evidence))
    requires t'.rows == t.rows + [row] && Matches(hash, row, e) && read(t')(row) == e
    requires forall i | 0 <= i < |t.rows| :: read(t')(t.rows[i]) == read(t)(t.rows[i])
    ensures AddsRow(t, t', e, hash, read)
  {
  }

  lemma NewIsPersisted(t: Tables, e: Evidence)
    requires IsNew(t.rows, e, ContentHash())
    ensures !HasId(t, e.evidenceId) && !HasHash(t, Fingerprint(AsInput(e)))
  {
    assert ContentHash()(e) == Fingerprint(AsInput(e));
  }

  lemma PersistedAdds(t: Tables, e: Evidence)
    requires OwnersExist(t) && Settled(e) && !HasId(t, e.evidenceId)
    ensures AddsRow(t, Persisted(t, e.evidenceId, Fingerprint(AsInput(e)), AsInput(e), e.createdAt), e, ContentHash(),
                    Reader)
  {
    var hash, input := Fingerprint(AsInput(e)), AsInput(e);
    ReadBack(t, e.evidenceId, hash, input, e.createdAt);
    ResolvedAgain(e);
    AppendAddsRow(t, Persisted(t, e.evidenceId, hash, input, e.createdAt),
                  RowOf(e.evidenceId, hash, input, e.createdAt), e, ContentHash(), Reader);
  }

  /** One round of the import loop with new evidence adds one matching row. */
  lemma ImportNew(t: Tables, e: Evidence)
    requires IndexAgrees(t) && Settled(e) && IsNew(t.rows, e, ContentHash())
    ensures IndexAgrees(ImportOne(t, e)) && AddsRow(t, ImportOne(t, e), e, ContentHash(), Reader)
  {
    NewIsPersisted(t, e);
    PersistedAgrees(t, e.evidenceId, AsInput(e), e.createdAt);
    PersistedAdds(t, e);
  }

  // The import loop over any step that adds matching rows and keeps an invariant.

  function Fold(one: (Tables, Evidence) -> Tables, t: Tables, es: seq<Evidence>): Tables
  {
    if es == [] then t else one(Fold(one, t, es[..|es| - 1]), es[|es| - 1])
  }

  ghost predicate StepOk(one: (Tables, Evidence) -> Tables, inv: Tables -> bool, hash: Evidence -> Digest,
                         read: Tables -> (EvidenceRow -> Evidence))
  {
    forall t, e | inv(t) && Settled(e) && IsNew(t.rows, e, hash) ::
      inv(one(t, e)) && AddsRow(t, one(t, e), e, hash, read)
  }

  /** The new rows are the old ones and one matching row per evidence, which reads back as it. */
  ghost predicate Imported(hash: Evidence -> Digest, read: EvidenceRow -> Evidence,
                           rows: seq<EvidenceRow>, rows': seq<EvidenceRow>, es: seq<Evidence>, added: seq<EvidenceRow>)
  {
    rows' == rows + added && AllMatch(hash, added, es) && ReadsAs(read, added, es)
  }

  ghost predicate ReadsAs(read: EvidenceRow -> Evidence, rows: seq<EvidenceRow>, es: seq<Evidence>)
  {
    |rows| == |es| && forall i | 0 <= i < |rows| :: read(rows[i]) == es[i]
  }

  lemma ImportedExtends(hash: Evidence -> Digest, read: Tables -> (EvidenceRow -> Evidence), rows: seq<EvidenceRow>,
                        t1: Tables, t2: Tables, es: seq<Evidence>, added: seq<EvidenceRow>, e: Evidence)
    requires Imported(hash, read(t1), rows, t1.rows, es, added) && AddsRow(t1, t2, e, hash, read)
    ensures Imported(hash, read(t2), rows, t2.rows, es + [e], added + [t2.rows[|t1.rows|]])
  {
    var row := t2.rows[|t1.rows|];
    assert t2.rows == t1.rows + [row];
    forall i | 0 <= i < |added| ensures read(t2)(added[i]) == es[i] {
      assert t1.rows[|rows| + i] == added[i];
    }
  }

  lemma NextIsNew(hash: Evidence -> Digest, rows: seq<EvidenceRow>, rows': seq<EvidenceRow>, es: seq<Evidence>,
                  subject: Str, added: seq<EvidenceRow>)
    requires ListedBy(hash, es, subject) && |es| == |added| + 1 && rows' == rows + added
    requires AllMatch(hash, added, es[..|added|]) && IsNew(rows, es[|added|], hash)
    ensures IsNew(rows', es[|added|], hash)
  {
    var e := es[|added|];
    forall i | 0 <= i < |rows'| ensures rows'[i].evidenceId != e.evidenceId && rows'[i].hash != hash(e) {
      if i >= |rows| {
        var k := i - |rows|;
        assert Matches(hash, added[k], es[..|added|][k]) && es[..|added|][k] == es[k];
        assert Before(es[k], e);
      }
    }
  }

  /** Folding such a step over a listing of new evidence adds one row per evidence. */
  lemma {:induction false} FoldListed(one: (Tables, Evidence) -> Tables, inv: Tables -> bool, hash: Evidence -> Digest,
                                      read: Tables -> (EvidenceRow -> Evidence), t: Tables, es: seq<Evidence>,
                                      subject: Str)
    returns (added: seq<EvidenceRow>)
    requires StepOk(one, inv, hash, read) && inv(t) && ListedBy(hash, es, subject)
    requires forall k | 0 <= k < |es| :: IsNew(t.rows, es[k], hash)
    ensures inv(Fold(one, t, es)) && Imported(hash, read(Fold(one, t, es)), t.rows, Fold(one, t, es).rows, es, added)
  {
    if es == [] {
      added := [];
    } else {
      var n := |es| - 1;
      ListedPrefix(hash, es, subject, n);
      var rows := FoldListed(one, inv, hash, read, t, es[..n], subject);
      var t1 := Fold(one, t, es[..n]);
      NextIsNew(hash, t.rows, t1.rows, es, subject, rows);
      var t2 := one(t1, es[n]);
      ImportedExtends(hash, read, t.rows, t1, t2, es[..n], rows, es[n]);
      added := rows + [t2.rows[|t1.rows|]];
      assert es == es[..n] + [es[n]];
    }
  }

  lemma {:induction false} ImportAllFolds(t: Tables, es: seq<Evidence>)
    ensures ImportAll(t, es) == Fold(ImportOne, t, es)
  {
    if es != [] {
      ImportAllFolds(t, es[..|es| - 1]);
    }
  }

  ghost function Agreement(): Tables -> bool
  {
    (t: Tables) => IndexAgrees(t)
  }

  lemma ImportOneOk()
    ensures StepOk(ImportOne, Agreement(), ContentHash(), Reader)
  {
    forall t, e | Agreement()(t) && Settled(e) && IsNew(t.rows, e, ContentHash())
      ensures Agreement()(ImportOne(t, e)) && AddsRow(t, ImportOne(t, e), e, ContentHash(), Reader)
    {
      ImportNew(t, e);
    }
  }

  lemma UnknownIsNew(t: Tables, es: seq<Evidence>, subject: Str)
    requires IndexAgrees(t) && Unknown(t, es, subject) && Listed(es, subject)
    ensures forall k | 0 <= k < |es| :: IsNew(t.rows, es[k], ContentHash())
  {
    forall k | 0 <= k < |es| ensures IsNew(t.rows, es[k], ContentHash()) {
      ForeignHashes(t, subject, es[k]);
      assert !HasId(t, es[k].evidenceId);
    }
  }

  /** Importing a listing into tables that know nothing of it. */
  lemma ImportListed(t: Tables, es: seq<Evidence>, subject: Str) returns (added: seq<EvidenceRow>)
    requires IndexAgrees(t) && Unknown(t, es, subject) && Listed(es, subject)
    ensures Agreement()(ImportAll(t, es))
    ensures Imported(ContentHash(), Reader(ImportAll(t, es)), t.rows, ImportAll(t, es).rows, es, added)
  {
    ImportOneOk();
    UnknownIsNew(t, es, subject);
    added := FoldListed(ImportOne, Agreement(), ContentHash(), Reader, t, es, subject);
    ImportAllFolds(t, es);
  }

  lemma {:induction false} RowsForNone(rows: seq<EvidenceRow>, subject: Str)
    requires forall i | 0 <= i < |rows| :: rows[i].subjectId != subject
    ensures RowsFor(rows, subject) == []
  {
    if rows != [] {
      RowsForNone(rows[..|rows| - 1], subject);
    }
  }

  lemma {:induction false} RowsForAdded(rows: seq<EvidenceRow>, added: seq<EvidenceRow>, subject: Str)
    requires RowsFor(rows, subject) == [] && forall i | 0 <= i < |added| :: added[i].subjectId == subject
    ensures RowsFor(rows + added, subject) == added
  {
    if added == [] {
      assert rows + added == rows;
    } else {
      var front, last := added[..|added| - 1], added[|added| - 1];
      assert (rows + added)[..|rows + added| - 1] == rows + front;
      assert (rows + added)[|rows + added| - 1] == last;
      RowsForAdded(rows, front, subject);
    }
  }

  lemma ListedRowsSorted(rows: seq<EvidenceRow>)
    requires RowsListed(rows)
    ensures Ordering.Sort(NewestFirst(), rows) == rows
  {
    var less := NewestFirst();
    RowOrder();
    SortedWhenListed(less, rows);
    Ordering.SortIdentity(less, rows);
  }

  lemma SortedWhenListed(less: (EvidenceRow, EvidenceRow) -> bool, rows: seq<EvidenceRow>)
    requires Ordering.WeakOrder(less) && forall i, j | 0 <= i < j < |rows| :: less(rows[i], rows[j])
    ensures Ordering.Sorted(less, rows) && Ordering.NoTies(less, multiset(rows))
  {
    forall i, j | 0 <= i < j < |rows| ensures !less(rows[j], rows[i]) {
      assert !less(rows[i], rows[i]);
    }
    forall x, y | x in multiset(rows) && y in multiset(rows) && x != y ensures less(x, y) || less(y, x) {
      var a :| 0 <= a < |rows| && rows[a] == x;
      var b :| 0 <= b < |rows| && rows[b] == y;
    }
  }

  lemma AddedIsListed(hash: Evidence -> Digest, read: EvidenceRow -> Evidence, rows: seq<EvidenceRow>,
                      rows': seq<EvidenceRow>,
                      es: seq<Evidence>, added: seq<EvidenceRow>, subject: Str)
    requires Imported(hash, read, rows, rows', es, added) && ListedBy(hash, es, subject)
    requires forall i | 0 <= i < |rows| :: rows[i].subjectId != subject
    ensures Ordering.Sort(NewestFirst(), RowsFor(rows', subject)) == added
  {
    forall i | 0 <= i < |added| ensures added[i].subjectId == subject {
      assert Matches(hash, added[i], es[i]);
    }
    RowsForNone(rows, subject);
    RowsForAdded(rows, added, subject);
    MatchingRowsListed(hash, added, es, subject);
    ListedRowsSorted(added);
  }

  /** Importing a listing into tables that know nothing of it makes listEvidence return it: the same
      evidence, with equal content, in the same order; and the log grows by exactly its length. */
  lemma ImportThenList(t: Tables, es: seq<Evidence>, subject: Str)
    requires IndexAgrees(t) && Unknown(t, es, subject) && Listed(es, subject)
    ensures ListEvidence(ImportAll(t, es), subject) == es
    ensures |ImportAll(t, es).rows| == |t.rows| + |es|
  {
    var added := ImportListed(t, es, subject);
    AddedIsListed(ContentHash(), Reader(ImportAll(t, es)), t.rows, ImportAll(t, es).rows, es, added, subject);
    ReadAllAs(ImportAll(t, es), added, es);
  }

  lemma ReadAllAs(t: Tables, rows: seq<EvidenceRow>, es: seq<Evidence>)
    requires ReadsAs(Reader(t), rows, es)
    ensures ReadAll(t, rows) == es
  {
    forall i | 0 <= i < |rows| ensures ReadAll(t, rows)[i] == es[i] {
      assert Reader(t)(rows[i]) == es[i];
    }
  }

  // ---------------------------------------------------------------- importing what is there

  /** A step leaves tables alone that know its evidence; afterwards they know it and all they knew. */
  ghost predicate Learns(one: (Tables, Evidence) -> Tables, knows: (Tables, Evidence) -> bool)
  {
    && (forall t, e | knows(t, e) :: one(t, e) == t)
    && (forall t, e :: knows(one(t, e), e))
    && (forall t, e, x | knows(t, x) :: knows(one(t, e), x))
  }

  lemma {:induction false} FoldLearns(one: (Tables, Evidence) -> Tables, knows: (Tables, Evidence) -> bool, t: Tables,
                                      es: seq<Evidence>)
    requires Learns(one, knows)
    ensures forall i | 0 <= i < |es| :: knows(Fold(one, t, es), es[i])
  {
    if es != [] {
      FoldLearns(one, knows, t, es[..|es| - 1]);
    }
  }

  lemma {:induction false} FoldKnown(one: (Tables, Evidence) -> Tables, knows: (Tables, Evidence) -> bool, t: Tables,
                                     es: seq<Evidence>)
    requires Learns(one, knows) && forall i | 0 <= i < |es| :: knows(t, es[i])
    ensures Fold(one, t, es) == t
  {
    if es != [] {
      FoldKnown(one, knows, t, es[..|es| - 1]);
    }
  }

  lemma KnowsPersisted(t: Tables, id: Str, hash: Digest, input: EvidenceInput, createdAt: Str)
    ensures var t' := Persisted(t, id, hash, input, createdAt);
            && HasId(t', id) && HasHash(t', hash)
            && (forall x | HasId(t, x) :: HasId(t', x)) && (forall x | HasHash(t, x) :: HasHash(t', x))
  {
    var t' := Persisted(t, id, hash, input, createdAt);
    assert t'.rows[|t.rows|] == RowOf(id, hash, input, createdAt);
    forall x | HasId(t, x) ensures HasId(t', x) {
      var i :| 0 <= i < |t.rows| && t.rows[i].evidenceId == x;
      assert t'.rows[i] == t.rows[i];
    }
    forall x | HasHash(t, x) ensures HasHash(t', x) {
      var i :| 0 <= i < |t.rows| && t.rows[i].hash == x;
      assert t'.rows[i] == t.rows[i];
    }
  }

  lemma ImportOneLearns()
    ensures Learns(ImportOne, Knows)
  {
    forall t, e
      ensures (Knows(t, e) ==> ImportOne(t, e) == t) && Knows(ImportOne(t, e), e)
      ensures forall x | Knows(t, x) :: Knows(ImportOne(t, e), x)
    {
      KnowsPersisted(t, e.evidenceId, Fingerprint(AsInput(e)), AsInput(e), e.createdAt);
    }
  }

  /** Importing evidence that is already there, by id or by content, changes nothing; and after an
      import all of its evidence is there. */
  lemma ImportKnown(t: Tables, es: seq<Evidence>)
    ensures (forall i | 0 <= i < |es| :: Knows(t, es[i])) ==> ImportAll(t, es) == t
    ensures ImportAll(ImportAll(t, es), es) == ImportAll(t, es)
  {
    ImportOneLearns();
    ImportAllFolds(t, es);
    ImportAllFolds(ImportAll(t, es), es);
    FoldLearns(ImportOne, Knows, t, es);
    FoldKnown(ImportOne, Knows, ImportAll(t, es), es);
    if forall i | 0 <= i < |es| :: Knows(t, es[i]) {
      FoldKnown(ImportOne, Knows, t, es);
    }
  }
}
