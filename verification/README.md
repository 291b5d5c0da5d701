# A verified model of the Infopunks trust control plane

The project models the deterministic core of the control plane in Dafny and proves what the program is
relied on for: the canonical JSON printer and the hashes built on it, the idempotency table, the evidence
log, resolutions and their replay, portable trust bundles, the trust engine, the event stream with its
wire format, the request validator and the compiler that produces its schemas, the rate limiter, webhook
retries and the choice of validators.

`dafny verify dfyconfig.toml` checks everything.

## How the model is laid out

| files | part of the program |
|---|---|
| `Utf16`, `CanonicalJson`, `JsonParser`, `CanonicalForm` | strings as UTF-16 code units, both JSON printers, a parser, hashes |
| `Ordering`, `Rounding` | the stable sort, `clamp` and `round` |
| `Idempotency` | `idempotent`, over single calls and whole runs |
| `EvidenceLog`, `EvidenceTransfer` | fingerprints, the evidence tables, listing and importing |
| `Credentials`, `TrustStore`, `Platform`, `TrustRuns`, `Portability` | the key and capability tables, the tables and their operations as functions, the object that updates them in place, whole runs, bundles |
| `Effects` | what each operation on the tables answers and leaves behind |
| `Journal` | the events that announce what is stored, over whole runs, up to the subscriber |
| `Snapshot`, `ValidatorGraph`, `SignalLoops`, `SnapshotProperties`, `SnapshotMeaning` | `computeSnapshot` and its loops, ranges, and what every part of its answer is in terms of the log |
| `Resolution`, `ResolutionMeaning`, `Dominance` | `computeResolution`, `deriveTrustState`, `derivePolicy`: what they answer, and that better snapshots fare no worse |
| `EventRail`, `SseCodec`, `EventDelivery` | the event log with its live streams; framing and reassembly (sections 9.2.5 and 9.2.6 of the WHATWG HTML Standard); both together |
| `Validation`, `ValidationProperties` | `validateValue` |
| `SchemaCompiler`, `SchemaMeaning`, `SchemaPreservation`, `SchemaLimits` | the schema compiler (schemas of section 4.8.24 of OpenAPI 3.1.0) |
| `RateLimiter`, `Webhooks`, `Quorum` | the windowed limiter, webhook delivery, `selectValidators` |

Pure code is modelled by functions. Code that works step by step is modelled by methods with loops, and
objects by classes; each method is proved against a function, and the theorems are about those functions. What an operation answers
is stated a second time without its functions, as thresholds, formulas over the log, and tables before and after.
The platform object and the webhook rail carry the invariant of their reachable states as `Valid()`.
Operations are not transactional in the program and not in the model: an error keeps what was written
before it.

## What the model assumes

SHA-256 is a free constructor over the hashed text, so it is injective; HMAC is a constructor over key and
message, used only as a deterministic function. `0.5^x`, `log10` and `localeCompare` are parameters with
their bounds or order properties. Numbers are reals, `Math.round` is floor(x + 0.5); a JSON number is its
shortest decimal digits and exponent. Times, fresh ids, network answers and timer firings are inputs. The
trust configuration and the policy rows do not change during a run. Stream writes and the emission of
events do not throw.

## Results about the program worth knowing

- `maxRequestsPerMinute` is not monotone: a better snapshot can get 20 instead of 40
  (`Dominance.RequestBudgetDrops` says exactly when).
- A webhook with `max_attempts` below 1 would still make one attempt; the request schema keeps it in 1..8.
- A replay finds its policy again only if neither the policy id nor its version contains an `@`
  (`TrustRuns.AtSignBreaksReplay` shows one that does not). The program itself inserts only the built-in
  policy row (`apps/api/lib/db.mjs:225-231`), whose names are plain.
- A registration with two keys of the same key id fails after the passport and the keys before the repetition
  are written: the subject stays registered, without capabilities and without a `passport.created` event, and
  trying again conflicts (`Platform.RepeatedKidRegisters`).
- An import that fails at its receipt keeps the evidence it has written, which no event announces
  (`Journal.EvidenceReported`).
- The reversal rate counts evidence but divides by validations, so it can exceed 1.
- The rate limiter tolerates a clock that falls back, as long as it does not return to a minute that it
  has left by more than two; beyond that it can admit what a ledger would refuse.
- A `consensus_threshold` of 0 means 0.67.
- A bundle can be imported once per store, and never into the store that exported it, whatever happens in
  between: the receipt id is a primary key (`Portability.BookedOnce`).
- A subscriber with a backlog of more than a hundred matching events is replayed the first hundred and then
  goes live, so it misses what lies between (`EventDelivery.BacklogLeavesGap`).
- The compiler ignores required keys that are no properties and all types of a list after the first non-null
  one, and turns `{}` into an object without properties. For enums, arrays, lists of types, objects with
  required keys and untyped schemas the exact conditions under which the meaning is kept are in
  `SchemaMeaning.EnumFaithfulIff` and `SchemaLimits`. Objects are closed unless `additionalProperties` opens them,
  which differs from the standard, where they are open by default; the model follows the code.

## Model

| member | source | states |
|---|---|---|
| `CanonicalForm.StableRoundTrip` | apps/api/lib/utils.mjs:22-33 | a parser recovers the value, keys sorted at every depth, from its canonical text followed by a rest exactly when that rest does not lengthen a trailing number |
| `CanonicalForm.StableStringifyIdentifiesSame` | apps/api/lib/utils.mjs:22-33 | two JSON values print alike if and only if they are equal up to object key order at every depth |
| `CanonicalForm.HashPayloadIdentifiesSame` | apps/api/lib/utils.mjs:35-37 | two payloads have the same hash if and only if they are equal up to key order, SHA-256 being injective |
| `CanonicalForm.StableIsCanonical` | apps/api/lib/utils.mjs:22-33 | the canonical text is the plain JSON text of the value with sorted keys |
| `CanonicalForm.SortedKeysAgree` | apps/api/lib/utils.mjs:26-28 | objects with the same keys sort them into the same sequence of UTF-16 code-unit order |
| `CanonicalForm.CanonAscends` | apps/api/lib/utils.mjs:26-28 | the canonical form has the keys of every object in strictly ascending code-unit order, at every depth |
| `CanonicalForm.LessIsOrder` | apps/api/lib/utils.mjs:26-28 | code-unit order is transitive and total on distinct keys, so the sort is determined by the keys |
| `Utf16.LessIsLexicographic` | apps/api/lib/utils.mjs:26-28 | the order of keys is the lexicographic one: a string comes first when it ends, or has the smaller unit, at the first difference |
| `CanonicalForm.ColumnRoundTrip` | apps/api/lib/platform.mjs:22-27 | what is stored in a JSON column is read back as the same value, fields in the same order |
| `JsonParser.StringifyRoundTrip` | apps/api/lib/utils.mjs:32 | a parser recovers any value from its JSON text followed by any rest that does not lengthen a trailing number |
| `JsonParser.ReadNumberOf` | apps/api/lib/utils.mjs:32 | a number is recovered from its text exactly when the rest does not begin with a unit that continues a number |
| `JsonParser.ReadMagnitudeOf` | apps/api/lib/utils.mjs:32 | all four layouts of a printed number (integer, point, leading zeros, exponent) read back as its digits and exponent |
| `CanonicalJson.MagnitudeLayout` | apps/api/lib/utils.mjs:32 | a printed number has an exponent exactly beyond 21 digits before the point or from 6 zeros behind it on, and is no longer than its digits, the zeros it needs, a point and the exponent |
| `JsonParser.ReadEscaped` | apps/api/lib/utils.mjs:28 | every string, lone surrogates included, is recovered from its escaped text up to the closing quote |
| `CanonicalJson.EscapeShape` | apps/api/lib/utils.mjs:28 | an escape has two units for seven units, six in lower-case hexadecimal for the other controls and lone surrogates, and nothing else is escaped |
| `CanonicalJson.PlainTextUnescaped` | apps/api/lib/utils.mjs:28 | text without controls, quotes, backslashes and lone surrogates is printed as it is |
| `Utf16.NatRoundTrip` | apps/api/lib/platform.mjs:457 | the decimal text of a natural number denotes that number |
| `Idempotency.IdempotentPlatform.Idempotent` | apps/api/lib/platform.mjs:732-755 | one call turns the state and the idempotency table into what the step function says; a call without a stored key runs its handler as Idempotency.UnknownRuns has it |
| `Idempotency.UnknownRuns` | apps/api/lib/platform.mjs:732-755 | a call that is not answered from a row runs its handler and hands on its response or error; what the handler changed stays, also before an error, and a row is added exactly by a keyed call that completes |
| `Idempotency.CompletesAtMostOnce` | apps/api/lib/platform.mjs:732-755 | in any run, at most one call per key completes its handler |
| `Idempotency.ReplayedOrRefused` | apps/api/lib/platform.mjs:732-755 | after a key has completed, every later call with it changes nothing; it gets the first response exactly when endpoint and body (up to key order) are the same, and is refused otherwise |
| `Idempotency.CompletionRecorded` | apps/api/lib/platform.mjs:749-754 | a completed keyed call leaves a row with its endpoint, request hash and response text |
| `Idempotency.RowsPersist` | apps/api/lib/platform.mjs:732-755 | rows of the idempotency table are never changed or removed by later calls |
| `EvidenceLog.FingerprintIdentifiesContent` | apps/api/lib/platform.mjs:314-334 | two evidences have the same fingerprint if and only if they have the same subject, type, task, validators in order, source system, trace and span, and their context, outcome, disputes and reason codes are equal up to key order, defaults filled in |
| `EvidenceLog.FingerprintResolved` | apps/api/lib/platform.mjs:314-334 | filling in the defaults that storing fills in does not change the fingerprint |
| `EvidenceLog.ReadBack` | apps/api/lib/platform.mjs:155-177 | a freshly stored record reads back as its input with defaults, and every older record reads back as before |
| `EvidenceLog.ResolvedAgain` | apps/api/lib/platform.mjs:155-177 | taking a read-back evidence as input again and reading it back changes nothing |
| `EvidenceLog.PersistedAgrees` | apps/api/lib/platform.mjs:1496-1527 | storing a record with a fresh id and fresh content keeps the index in agreement: unique ids and hashes, every hash equal to the recomputed fingerprint, no orphaned validators |
| `EvidenceLog.ContentIsUnique` | apps/api/lib/platform.mjs:1637-1646 | no two rows share canonical content |
| `EvidenceLog.IdOfHash` | apps/api/lib/platform.mjs:1639-1641 | the lookup by hash finds an id exactly when a row has that hash |
| `EvidenceLog.ImportAgrees` | apps/api/lib/platform.mjs:1011-1027 | the import loop keeps the index in agreement and only appends rows |
| `EvidenceTransfer.ListIsListed` | apps/api/lib/platform.mjs:1480-1485 | listEvidence returns the evidence of the subject, newest first, ids descending within an instant, without repeated ids or content |
| `EvidenceTransfer.ImportThenList` | apps/api/lib/platform.mjs:1011-1027 | importing a listing into tables that know nothing of it makes listEvidence return it, with equal content in the same order, and the log grows by its length |
| `EvidenceTransfer.ImportKnown` | apps/api/lib/platform.mjs:1011-1027 | importing evidence whose ids or content are all there changes nothing, and importing the same list twice is importing it once |
| `EvidenceTransfer.FoldListed` | apps/api/lib/platform.mjs:1011-1027 | any loop whose step adds a matching row for new evidence adds one row per evidence of a listing, in order |
| `Platform.TrustPlatform.PersistEvidenceRecord` | apps/api/lib/platform.mjs:1496-1527 | one evidence row and then one row per validator, in order, nothing else |
| `Platform.TrustPlatform.ImportEvidence` | apps/api/lib/platform.mjs:1010-1027 | the loop leaves the tables as the fold of the import step, and its counter counts the evidences that are not skipped when their turn comes |
| `Platform.TrustPlatform.RecomputeSnapshot` | apps/api/lib/platform.mjs:1529-1565 | it succeeds exactly for registered active subjects; then the snapshot it returns is stored under the subject, everything else is unchanged, a failure changes nothing, and the invariant of reachable states is kept |
| `Effects.SubjectStands` | apps/api/lib/platform.mjs:1284-1314 | a subject passes exactly when its first passport is active; it is unknown exactly without a passport, and refused as revoked or suspended by the status of that passport |
| `Effects.EvidenceIsHandled` | apps/api/lib/platform.mjs:1623-1678 | a malformed request and a subject that is not active change nothing; known content changes nothing and is answered with the id of the row that has it; new evidence reads back as its input with defaults, older evidence as before, its snapshot is computed with it, the subject is revoked afterwards exactly by evidence of the revoking type, and no other passport or table changes |
| `Platform.TrustPlatform.HandleEvidence` | apps/api/lib/platform.mjs:1624-1677 | the handler of recordEvidence does, in place, what Effects.EvidenceIsHandled says, error by error |
| `Platform.TrustPlatform.Lookup` | apps/api/lib/platform.mjs:737-748 | a stored key answers with its response exactly when endpoint and hash match, and with a conflict otherwise |
| `Platform.TrustPlatform.RecordEvidence` | apps/api/lib/platform.mjs:1623-1678 | recordEvidence is the idempotent step around its handler, hashing the whole request body; without a stored key it handles the evidence of the body, stamped with its created_at or else the clock, and the invariant of reachable states is kept |
| `Platform.TrustPlatform.HandlePassport` | apps/api/lib/platform.mjs:1316-1424 | it completes exactly for a named subject of a listed type of which no passport has the subject, the id or the DID, and for keys with distinct key ids; a request that fails the checks changes nothing, and one that only repeats a key id leaves the passport and the keys before the repeated one, without capabilities |
| `Effects.RegistrationRefuses` | apps/api/lib/platform.mjs:1316-1411 | a registration is refused as invalid without a subject or a listed type, as conflicting for a known subject or DID, and by the tables for a taken passport id; a refusal changes nothing, and past it exactly the passport of the request is added |
| `Platform.TrustPlatform.InsertKeys` | apps/api/lib/platform.mjs:1392-1397 | the key loop inserts the keys in order and stops at the first that repeats a key id of the passport |
| `Platform.TrustPlatform.RotatePassportKey` | apps/api/lib/platform.mjs:1427-1473 | a key rotation adds its key behind the others, and fails without a change for an inactive subject or a key id that is taken |
| `Effects.RotationMeans` | apps/api/lib/platform.mjs:1427-1473 | a rotation is refused for a subject that is not active and for a key id its passport has; otherwise the key is added behind the others and the metadata of that passport replaced, and nothing else changes |
| `Platform.RegistrationMeans` | apps/api/lib/platform.mjs:1316-1424 | what a registration writes, for every reachable key table: all of it, nothing, or the passport with the keys before the repeated key id |
| `Platform.RepeatedKidRegisters` | apps/api/lib/platform.mjs:1392-1397 | a request that repeats a key id fails and still registers its subject, and trying it again conflicts |
| `Platform.SameKeyTwice` | apps/api/lib/platform.mjs:1392-1397 | the first registration with the same key twice fails and leaves a passport with that key |
| `Credentials.EnrolledReadsBack` | apps/api/lib/platform.mjs:89-111 | keys and capabilities of a new passport are read back in order, all of them exactly when the key ids are distinct, and other passports keep theirs |
| `Credentials.KeysOfDistinct` | apps/api/lib/db.mjs:51-60 | the keys read back of a passport have distinct key ids |
| `Platform.TrustPlatform.CreatePassport` | apps/api/lib/platform.mjs:1316-1425 | createPassport is the idempotent step around its handler, hashing the whole request body; without a stored key it registers or refuses the passport, and the invariant of reachable states is kept |
| `Platform.TrustPlatform.FindCandidates` | apps/api/lib/platform.mjs:1999-2030 | the candidate loop in place: the recursive description, and what Effects.CandidatesConsidered says of it |
| `Effects.CandidatesConsidered` | apps/api/lib/platform.mjs:1999-2030 | the candidate loop rates, in order, exactly the candidates other than the subject whose band reaches the rule's minimum for validation and whose collusion risk is below 0.55; it stops with the error of a candidate whose snapshot is missing and cannot be computed, and only adds snapshots of active candidates |
| `Effects.RecommendedAreBest` | apps/api/lib/platform.mjs:1999-2033 | the recommended validators are the best three of the rated candidates by fit, then score, then name; the candidates are those named, or else all other active subjects |
| `TrustRuns.InsertResolutionInv` | apps/api/lib/platform.mjs:2103-2190 | the resolution row and then the trace row keep the invariant whichever of the two inserts fails, because the trace holds what its replay needs |
| `Platform.TrustPlatform.ResolveTrust` | apps/api/lib/platform.mjs:2035-2322 | resolveTrust in place does what Effects.ResolutionIsResolved says; a completed resolution is stored, and its trace replays to it as long as its policy version holds one @; the invariant of reachable states is kept, errors after writing included |
| `Effects.ResolutionIsResolved` | apps/api/lib/platform.mjs:2035-2322 | resolveTrust answers with score, band, decision and confidence computed from the subject's snapshot under the policy asked for, the built-in one by default, and stores that row and a trace with all that a replay needs; taken ids refuse it, and a high-risk answer below the minimum confidence is an error, after the fact, exactly when no candidate could validate |
| `Platform.TrustPlatform.ExportTrustBundle` | apps/api/lib/platform.mjs:921-972 | exportTrustBundle in place does what Effects.ExportIsExported says; a returned bundle passes verification, its receipt is new and stored with the hash of its payload, only snapshots and receipts change, and an error adds no receipt |
| `Effects.ExportTakesNewest` | apps/api/lib/platform.mjs:924-925 | exported evidence is a newest-first listing of the subject without repetitions: none when it is excluded, otherwise as many as the smaller of the subject's rows and max(1, limit, by default 25), and everything left out is listed after all that is exported |
| `Effects.ExportTakesTraces` | apps/api/lib/platform.mjs:926-932 | exported trace references are none when excluded, otherwise the ids of the subject's latest traces, twenty or all, and no later trace is left out |
| `Effects.ExportIsExported` | apps/api/lib/platform.mjs:921-972 | an export is refused for a subject that is not active and under a stored receipt id; otherwise the bundle has the passport, its keys and capabilities, its stored or newly computed snapshot, that evidence and those traces, a receipt for the asked network, by default the environment, signed over its hash, and the receipt is stored as an export |
| `Platform.TrustPlatform.GetTrace` | apps/api/lib/platform.mjs:2901-2935 | in every reachable state replaying a trace with a resolution reports a match exactly when the policy found for it puts the stored score into the stored band |
| `Platform.TrustPlatform.ImportRest` | apps/api/lib/platform.mjs:1010-1058 | evidence, snapshot and receipt of an import, keeping what was written before an error |
| `Effects.SnapshotTakesOver` | apps/api/lib/platform.mjs:1029-1044 | an import takes the bundle's snapshot over exactly where there is none or in mirror mode; otherwise it computes the snapshot again exactly when some evidence was imported, and keeps it if none was |
| `Effects.ImportTakesIn` | apps/api/lib/platform.mjs:974-1083 | an import is refused for a receipt that does not verify and where the subject cannot be registered; otherwise the evidence is imported, the snapshot taken over, and the receipt stored as an import under its id, which has to be new; the answer is how much the log grew |
| `Platform.TrustPlatform.ImportTrustBundle` | apps/api/lib/platform.mjs:974-1083 | importTrustBundle in place does what Effects.ImportTakesIn says; it completes only under a receipt id that was not stored and stores it, adds no receipt when it fails, and keeps the invariant of reachable states |
| `TrustRuns.PolicyFoundAgain` | apps/api/lib/platform.mjs:2911-2918 | a policy that is not the built-in one is found again under the version string of its resolutions exactly when neither its id nor its version contains an @ |
| `TrustRuns.SplitJoined` | apps/api/lib/platform.mjs:2912-2914 | joining id and version with @ and splitting at @ gives both back exactly when neither contains an @ |
| `TrustRuns.ResolveTrustInv` | apps/api/lib/platform.mjs:2035-2322 | resolveTrust stores with every resolution a trace that replays to it |
| `TrustRuns.StepInv` | apps/api/lib/platform.mjs:974-1083 | registering, recording, resolving, exporting, importing, status changes and other traces each keep the whole-state invariant |
| `TrustRuns.EveryReplayMatches` | apps/api/lib/platform.mjs:2879-2936 | in every reachable state, whatever came later, a trace with a resolution replays to the stored score and decision; it matches exactly when the policy found under its version string gives the stored band, as it does when that string has one @ |
| `TrustRuns.ResolvedReplays` | apps/api/lib/platform.mjs:2035-2322 | a completed resolution replays at once as its own policy lookup says |
| `TrustRuns.AtSignBreaksReplay` | apps/api/lib/platform.mjs:2911-2928 | under a policy that is lost in splitting its version string, and whose bands differ from the built-in ones at every score, the first resolution is stored and its replay reports a mismatch |
| `TrustRuns.AtSignSplit` | apps/api/lib/platform.mjs:2911-2915 | beside the built-in policy with its own six bands, a policy with the id a@b and reversed bands is such a policy |
| `TrustRuns.EveryHashAgrees` | apps/api/lib/platform.mjs:314-334 | in every reachable state each stored hash is the fingerprint recomputed from the row as read back |
| `TrustRuns.EveryContentDiffers` | apps/api/lib/platform.mjs:1637-1646 | in every reachable state no two rows share canonical content |
| `Portability.ExportVerifies` | apps/api/lib/platform.mjs:713-730 | every exported bundle passes verification under the same signing key in any environment |
| `Portability.ReceiptCovers` | apps/api/lib/platform.mjs:713-722 | the signed hash of two bundles agrees exactly when subject, source, target, snapshot version, evidence ids and trace ids agree |
| `Portability.PortabilityRoundTrip` | apps/api/lib/platform.mjs:921-1083 | importing an exported bundle where nothing is known of it reports its evidence count, makes listEvidence return exactly its evidence, stores its snapshot and registers the subject, active, with its type, DID, issuer, keys and capabilities in order and with metadata that say where it came from |
| `Portability.PortabilityOverRuns` | apps/api/lib/platform.mjs:921-1083 | the same between any two reachable stores that share a signing key |
| `Portability.StepBooks` | apps/api/lib/db.mjs:185-194 | every step of the platform adds exactly the receipt of the export or import it completes, under an id that was not there, and loses and changes none |
| `Portability.BookedOnce` | apps/api/lib/db.mjs:185-194 | in any run from any store a receipt id completes one export or import at most, so a bundle is imported once into a store and never into the store that exported it |
| `Portability.ReceiptsAreBooked` | apps/api/lib/platform.mjs:921-1083 | the receipts of a reachable store are exactly those of the exports and imports completed on the way |
| `Portability.ImportBooks` | apps/api/lib/platform.mjs:1046-1058 | an import completes exactly by adding its receipt id, which must be new |
| `Portability.ImportAtHomeFails` | apps/api/lib/db.mjs:185-194 | importing a bundle right after exporting it fails at the receipt, in either mode, and changes nothing |
| `Portability.ImportTwiceFails` | apps/api/lib/platform.mjs:1046-1058 | any completed import, repeated at once, fails at the receipt and changes nothing |
| `Portability.ImportedIsGrowth` | apps/api/lib/platform.mjs:1010-1027 | the imported_evidence_count of a completed import, which the loop counts, is the growth of the log |
| `EvidenceLog.ImportCountIsGrowth` | apps/api/lib/platform.mjs:1010-1027 | counting the evidences that are not skipped counts the rows that are added |
| `Ordering.SortForgetsArrival` | packages/trust-engine/index.mjs:342-344 | a stable sort forgets the order of arrival exactly when no two distinct elements tie |
| `SnapshotProperties.OrderedIsNewerFirst` | packages/trust-engine/index.mjs:342-344 | of two entries of the ordered log the earlier one has the later instant, or the same instant and an id that is not behind |
| `SnapshotMeaning.LastEventIsNewest` | packages/trust-engine/index.mjs:462 | last_event_at is not before any evidence of the log and is the instant of one; without evidence it is the passport's |
| `SnapshotMeaning.WindowIsNewest` | packages/trust-engine/index.mjs:345-346 | no evidence outside the window of the newest k is newer than one inside, and window and rest together are the log |
| `SnapshotMeaning.ComputedSnapshotMeans` | packages/trust-engine/index.mjs:341-579 | the stored snapshot is what the log says, newest first: version, last event, counts of the newest hundred, a competence for every domain named there and no other, and every reading of SnapshotMeaning.SignalsAre to four decimals, those of trust_vector_v1 in percent |
| `SnapshotMeaning.SignalsAre` | packages/trust-engine/index.mjs:347-534 | every reading as a formula over counts and weighted sums of the newest twenty and hundred events: execution, accuracy, consensus, graph, task value, freshness, dependencies, penalties, and the eleven readings derived from them |
| `SnapshotMeaning.ExecutionIs` | packages/trust-engine/index.mjs:366-396 | execution reliability is 0.35 of the weight share of completed tasks, 0.3 and 0.2 of the weighted means of quality and confidence, and 0.15 of that of latency, newer and more valuable tasks counting more |
| `SnapshotMeaning.WorthIs` | packages/trust-engine/index.mjs:233-247 | a task's value is the product of its eight factors, between 0.5 and 3 |
| `SnapshotMeaning.ConsensusIs` | packages/trust-engine/index.mjs:409-419 | the consensus is the mean over the newest twenty of the share of passing verdicts, newer evidence counting more, a half where there are none |
| `SnapshotMeaning.GraphIs` | packages/trust-engine/index.mjs:249-335 | the graph readings are shares of all verdicts: those beyond a judge's first, those of the two most frequent judges, reversals, and those of judges with the subject's issuer or infrastructure, and the collusion risk combines them |
| `SnapshotMeaning.CompetenceIs` | packages/trust-engine/index.mjs:449-459 | a domain's competence is half the share of completed events, three tenths the mean of quality and confidence and two tenths the freshness of its youngest event |
| `SnapshotMeaning.DependencyIs` | packages/trust-engine/index.mjs:162-197 | the dependency risk combines low mean health and the share of risky dependencies of the passport and the newest twenty, and is 0.2 without dependencies |
| `SnapshotMeaning.AdversityIs` | packages/trust-engine/index.mjs:199-231 | the adversarial risk is the sum of the penalties of the newest hundred events, of 120 |
| `SnapshotProperties.OrderForgetsArrival` | packages/trust-engine/index.mjs:342-344 | the evidence order is newest first, and independent of arrival exactly when distinct evidences are told apart by time or id |
| `SnapshotProperties.ArrivalOrderDoesNotMatter` | packages/trust-engine/index.mjs:341-579 | computeSnapshot gives the same result for every arrangement of evidences that time or the comparison of ids tells apart, the one of the arrangement that is newest first |
| `SnapshotProperties.AverageConvex` | packages/trust-engine/index.mjs:117-127 | a weighted average stays within its values' range, and is 0 without values |
| `SnapshotProperties.SignalRanges` | packages/trust-engine/index.mjs:364-534 | every signal lies in its range and none of the clamps on combinations with weights adding to 1 ever binds |
| `SnapshotProperties.ExecutionClampIdle` | packages/trust-engine/index.mjs:366-396 | over the engine's own task weights the execution combination lies in [0, 1], so its clamp never binds |
| `SnapshotProperties.VectorRanges` | packages/trust-engine/index.mjs:525-579 | every stored rate and graph ratio except reversal_rate lies in [0, 1], issuer_correlation included, and each trust_vector_v1 entry is an integer in 0..100 |
| `SnapshotProperties.GraphRange` | packages/trust-engine/index.mjs:287-335 | diversity, density, mutual validation and sharing ratios lie in [0, 1] |
| `SnapshotProperties.DependencyRange` | packages/trust-engine/index.mjs:162-197 | the dependency risk lies in [0, 1] |
| `SnapshotProperties.CompetenceRange` | packages/trust-engine/index.mjs:449-459 | before rounding a domain competence lies in [0, 1], so its clamp never binds |
| `SnapshotProperties.ReversalRateBound` | packages/trust-engine/index.mjs:282-311 | the reversal rate stays at most 1 exactly when there are no more reversals than validations, or no validation |
| `SnapshotProperties.ReversalRateExceedsOne` | packages/trust-engine/index.mjs:282-311 | two reversals with a single validator between them give a reversal rate of 2 |
| `Snapshot.RollingWeights` | packages/trust-engine/index.mjs:113-115 | one weight per item, items unchanged: 1 - i / (n + 1) at position i of n, which is positive and at most 1 |
| `Snapshot.CountGraph` | packages/trust-engine/index.mjs:249-300 | the counting loops yield all validator ids, the reversals and the shared matches, and the pair map's repeated interactions |
| `ValidatorGraph.RepeatedInteractions` | packages/trust-engine/index.mjs:295-300 | the pair-map loop's repeated interactions are all validations less the distinct validators |
| `ValidatorGraph.ClusterCountsAddUp` | packages/trust-engine/index.mjs:303-306 | the per-validator counts add up to the number of validations |
| `ValidatorGraph.ClusterDensityBounds` | packages/trust-engine/index.mjs:303-309 | the two largest counts hold at least min(1, 2/distinct) of all validations, and all of them with at most two validators |
| `ValidatorGraph.DominantIsLargestPair` | packages/trust-engine/index.mjs:303-309 | the dominant count is the most that any two validators contribute together |
| `ValidatorGraph.BumpedAllCounts` | packages/trust-engine/index.mjs:256-261 | the pair map holds, per validator seen, exactly the number of its validations |
| `SignalLoops.BuildDomainStats` | packages/trust-engine/index.mjs:129-153 | the bucket loop yields, per named domain, the total, successes, qualities and freshest age of exactly the events in it |
| `SignalLoops.CompetenceFromBuckets` | packages/trust-engine/index.mjs:449-459 | the competence computed from a bucket is the closed form over the domain's events |
| `SignalLoops.AdversarialSignals` | packages/trust-engine/index.mjs:199-231 | counting by type and charging per type adds up to the penalty of every single event |
| `SignalLoops.CountEvents` | packages/trust-engine/index.mjs:200-207 | the count loop keeps the total charge of its map equal to the charge of the events seen |
| `Resolution.DerivePolicy` | packages/trust-engine/index.mjs:615-687 | the reassigning policy derivation yields, for every trust state and vector, the row of the policy table |
| `ResolutionMeaning.Resolve` | packages/trust-engine/index.mjs:689-837 | computeResolution, step by step: the score as a sum of gains and losses, the band of the first range that holds it, confidence, preliminary decision, trust vector, and each trust state, action, budget and decision exactly under its own thresholds |
| `ResolutionMeaning.ResolutionMeans` | packages/trust-engine/index.mjs:594-837 | the same of the function: quarantine, blocking, secondary validation, rate limit, escrow and allowing, with 0, 1, 40, 20, 40 and 120 requests, each exactly under its own condition on score, adversarial risk, quarantine events, freshness, execution and economic integrity |
| `ResolutionMeaning.AllowedIff` | packages/trust-engine/index.mjs:594-687 | the decision is to allow exactly when the score is at or above the risky threshold and above the quarantine threshold and 35, there is no quarantine event, adversarial risk is below 70, freshness at least 40, execution at least 50 and economic integrity at least 60 |
| `ResolutionMeaning.FindBand` | packages/trust-engine/index.mjs:68-75 | the loop over the ranges gives the band of the first one that holds the score, quarantined when none does |
| `Resolution.Score` | packages/trust-engine/index.mjs:692-717 | the score is an integer between 0 and 100 |
| `Dominance.ScoreMonotone` | packages/trust-engine/index.mjs:692-717 | a vector that is nowhere worse never scores lower |
| `Dominance.StateMonotone` | packages/trust-engine/index.mjs:594-613 | better entries, a higher score and no more quarantine events never give a lower trust state |
| `Dominance.DominanceTheorem` | packages/trust-engine/index.mjs:689-837 | under the same context, policy and configuration a snapshot that is nowhere worse has at least the score, the trust-state rank and the final decision |
| `Dominance.BandDominance` | packages/trust-engine/index.mjs:68-75 | better snapshots get at least the band exactly for policies whose ranges form a ladder, among all vectors as well as among those that computeSnapshot can store |
| `Dominance.DefaultPolicyIsLadder` | packages/trust-engine/index.mjs:68-75 | the built-in bands form such a ladder |
| `Dominance.RequestBudgetDrops` | packages/trust-engine/index.mjs:615-687 | a better snapshot gets a smaller request budget exactly when it leaves the risky thresholds of score and adversarial risk, without having been quarantined or compromised, while its evidence is stale or its execution unreliable |
| `Dominance.RequestBudgetDropExample` | packages/trust-engine/index.mjs:615-687 | two storable snapshots with scores 47 and 81 of which the better one gets 20 requests a minute instead of 40 |
| `EventRail.ExactlyOnce` | apps/api/lib/routes.mjs:25-44 | a subscriber has been sent the filtered log from its start on, without gap or duplicate, exactly when nothing it asked for lay beyond the hundred replayed events when it joined |
| `EventRail.SubscriberGets` | apps/api/lib/platform.mjs:3139-3157 | a subscriber has been sent exactly the events of a listed type and a listed subject that came after it joined, or were asked for by its since with fewer than a hundred asked for before, each once and in the order of the log |
| `EventRail.LatestHundredHasNoGap` | apps/api/lib/platform.mjs:3139-3149 | without since, or with since=0, there is never a gap |
| `EventRail.FirstIndex` | apps/api/lib/platform.mjs:3139-3149 | the first replayed index never lies beyond the log |
| `EventRail.Stream.Replay` | apps/api/lib/routes.mjs:31-35 | the replay loop writes exactly the matching events in order |
| `EventRail.EventRail.Append` | apps/api/lib/platform.mjs:3077-3091 | one event is logged and written to exactly the open streams whose filter it matches, keeping every stream served |
| `EventRail.EventRail.EmitEvent` | apps/api/lib/platform.mjs:3067-3130 | the event and, for a rotated key or an alert, an event of the alias type about the same subject are logged, and every open stream stays served |
| `EventRail.EventRail.StartEventStream` | apps/api/lib/routes.mjs:15-44 | a subscription is refused exactly at the stream limit of its key; otherwise it is sent the replay and goes live at the log's end |
| `EventRail.EventRail.FinalizeStream` | apps/api/lib/routes.mjs:46-59 | the finalizer takes the stream and its slot away once, however often it is called |
| `SseCodec.SplitExtends` | packages/trust-sdk/index.mjs:529-531 | splitting a longer text yields the complete frames of the shorter one first |
| `SseCodec.Subscribe` | packages/trust-sdk/index.mjs:521-551 | the read loop hands over, chunk by chunk, what the complete frames of the whole text hand over, and keeps its unfinished rest |
| `SseCodec.HandleFrames` | packages/trust-sdk/index.mjs:531-549 | the frame loop hands over the typed payloads of the frames, in order |
| `SseCodec.DataLineIsFirst` | packages/trust-sdk/index.mjs:533-536 | the data line of a frame is its first line that starts with the data prefix, and there is none exactly when no line does |
| `SseCodec.FrameLines` | apps/api/lib/routes.mjs:25-28 | a frame of the server is its event line and its data line |
| `SseCodec.CodecRoundTrip` | packages/trust-sdk/index.mjs:521-551 | in whatever chunks the server's text arrives, exactly the sent events are handed over in order, greeting and heartbeats dropped, and the partial frame stays buffered |
| `SseCodec.HandleFrame` | apps/api/lib/routes.mjs:25-28 | an event frame as the server writes it is handed over as its payload, the greeting and heartbeat frames as nothing |
| `SseCodec.StringifyOneLine` | apps/api/lib/routes.mjs:25-28 | JSON text holds no raw newline, so a payload fits on its data line |
| `EventDelivery.EndToEnd` | packages/trust-sdk/index.mjs:521-551 | in whatever chunks a stream arrives, heartbeats among it, the SDK hands over the payloads the stream was sent, and these are all the subscriber asked for, once and in order, exactly when nothing it asked for lay beyond the replay when it joined |
| `EventDelivery.Receive` | packages/trust-sdk/index.mjs:521-551 | the subscribe loop at the far end of an open stream of the rail hands over exactly that |
| `EventDelivery.BacklogLeavesGap` | apps/api/lib/routes.mjs:25-44 | with more than a hundred matching events waiting, a subscriber does not get all it asked for |
| `Journal.ResolutionsReported` | apps/api/lib/platform.mjs:2103-2203 | in every run trust.resolved events announce exactly the resolutions that have a trace, in the order of the traces |
| `Journal.ReceiptsReported` | apps/api/lib/platform.mjs:958-1072 | in every run the portability events announce exactly the stored receipts, each once |
| `Journal.EvidenceReported` | apps/api/lib/platform.mjs:1011-1072 | in every run the stored evidence is what was announced as recorded, plus the announced import counts, plus what failed imports left unannounced |
| `Journal.PassportsReported` | apps/api/lib/platform.mjs:1371-1411 | in every run passport.created events announce the registered subjects in order exactly as long as no registration failed at a repeated key id |
| `Journal.SubscriberLearnsResolutions` | packages/trust-sdk/index.mjs:521-551 | a subscriber to trust.resolved that joins within the first hundred events is handed one payload per resolution with a trace, in the order of the traces, in whatever chunks its stream arrives |
| `RateLimiter.RateLimits.CleanupRateLimits` | apps/api/lib/platform.mjs:430-441 | one cleanup per minute removes exactly the windows more than two minutes old |
| `RateLimiter.Resolve` | apps/api/lib/platform.mjs:443-451 | cost and limit are the route's own, or else those configured for its bucket, or for unknown buckets the fallback's, or else 1 and 600; the bucket is the route's or the default one |
| `RateLimiter.RateLimits.EnforceRateLimit` | apps/api/lib/platform.mjs:453-464 | the in-place limiter admits, refuses and updates as its step function says |
| `RateLimiter.RateLimits.GetBudgetRemaining` | apps/api/lib/platform.mjs:576-589 | the reported budget is what can still be spent: a call of positive cost is admitted at that minute exactly when it costs no more |
| `RateLimiter.WindowKeyInjective` | apps/api/lib/platform.mjs:457 | window keys of colon-free buckets name one key id, bucket and minute |
| `RateLimiter.WindowKeyStale` | apps/api/lib/platform.mjs:435-437 | the last part of a window key is its minute, so a key is stale exactly when its minute is more than two behind |
| `RateLimiter.DecisionMatches` | apps/api/lib/platform.mjs:453-464 | a call is decided as a ledger that never forgets decides it, unless the clock returned to its minute after being more than two past it |
| `RateLimiter.ClockDecides` | apps/api/lib/platform.mjs:430-464 | every run over a clock is decided as the ledger does exactly when the clock never comes back to a minute it has left by more than two |
| `RateLimiter.NondecreasingRefines` | apps/api/lib/platform.mjs:430-464 | under a clock that does not run backwards every decision is the ledger's |
| `RateLimiter.AdmittedWithinLimit` | apps/api/lib/platform.mjs:453-464 | with limits fixed per bucket the cost admitted per key, bucket and minute never exceeds the limit |
| `RateLimiter.WindowsKept` | apps/api/lib/platform.mjs:430-441 | after a call in minute m the map holds only windows m-2..m |
| `RateLimiter.RemainingMatches` | apps/api/lib/platform.mjs:576-589 | the reported remaining budget is the limit minus the ledger's admitted cost, at least 0 |
| `Webhooks.AttemptsBounded` | apps/api/lib/platform.mjs:790-869 | every delivery makes attempts 1, 2, ... once each and in order, at most max(1, max_attempts); max_attempts itself bounds them exactly when it is at least 1 |
| `Webhooks.RetryIffOutstanding` | apps/api/lib/platform.mjs:781-869 | retry_scheduled holds exactly while one retry timer or retry attempt is outstanding, pending exactly while the first attempt is, and failed only after all allowed attempts |
| `Webhooks.TimerDelayStored` | apps/api/lib/platform.mjs:781-788 | the delay of every retry timer is the offset its row stores, at most 2000 ms |
| `Webhooks.BackoffWaits` | apps/api/lib/platform.mjs:781-788 | the delay is the base delay doubled once per attempt made, and 2000 ms at most |
| `Webhooks.DoneIsFinal` | apps/api/lib/platform.mjs:817-848 | succeeded and failed are final: the row stays as it is and no further attempt is made |
| `Webhooks.StatusEventsCreateNothing` | apps/api/lib/platform.mjs:871-885 | deliveries are created only by emitting an event some active webhook wants; delivery-status events never create any |
| `Webhooks.DispatchAppends` | apps/api/lib/platform.mjs:871-885 | dispatching appends one delivery per webhook that wants the event, in order |
| `Webhooks.WebhookRail.DispatchWebhooks` | apps/api/lib/platform.mjs:871-885 | the dispatch loop inserts a pending delivery and starts its first attempt for exactly the matching active webhooks |
| `Webhooks.WebhookRail.EmitEvent` | apps/api/lib/platform.mjs:3067-3130 | the webhook side of emitEvent: log, dispatch unless switched off, and the same for the alias event that its type calls for; the invariant of reachable states is kept |
| `Webhooks.WebhookRail.FinishAttempt` | apps/api/lib/platform.mjs:816-868 | in every reachable state an answer leaves its delivery succeeded, failed when no attempt is left, or waiting for the one timer of the next attempt, for the base delay doubled with every attempt and at most 2000 ms; the outcome is logged under its own event type about the subject of the event; other deliveries and the requests made are unchanged |
| `Webhooks.WebhookRail.TimerFires` | apps/api/lib/platform.mjs:783-786 | in every reachable state a firing timer waited as long as its row says and starts the next attempt that its webhook allows, after which attempts 1, 2, ... have been made once each; no row changes |
| `Quorum.NormalizeQuorumPolicy` | apps/api/lib/platform.mjs:298-312 | the required count is the requested one, else the minimum count, else 1, and at least 1; the threshold is the requested one, else the policy's, else 0.67, with 0 read as 0.67 and others brought into [0, 1] |
| `Quorum.ThresholdKept` | apps/api/lib/platform.mjs:303-304 | a requested threshold within [0, 1] is used exactly when it is not 0; 0 becomes 0.67 |
| `Quorum.CandidatesPartitioned` | apps/api/lib/platform.mjs:2360-2430 | every candidate occurrence ends up in exactly one of eligible and rejected |
| `Quorum.CandidateIsJudged` | apps/api/lib/platform.mjs:2361-2429 | a candidate is eligible exactly when it is active, a validator or capable of validation, not colluding (risk below 0.55, and not above 0.4 at a density within 0.1 of the subject's), and its band reaches the rule's minimum for validation; a rejection names the first of these that fails, and an eligible candidate has the score of the formula |
| `Quorum.CandidatesAreJudged` | apps/api/lib/platform.mjs:2360-2430 | every candidate occurrence is judged so by the snapshots there are in the end, and only snapshots are added |
| `Quorum.SelectionScore` | apps/api/lib/platform.mjs:2399-2403 | the selection score lies in [0, 1] |
| `Quorum.JudgeCandidate` | apps/api/lib/platform.mjs:2361-2429 | one round of the candidate loop judges its candidate as Quorum.CandidateIsJudged says and computes at most a missing snapshot |
| `Quorum.SelectValidators` | apps/api/lib/platform.mjs:2349-2445 | an inactive subject is refused and nothing changes; for any other, under the policy asked for, every candidate occurrence is judged as Quorum.CandidateIsJudged says, the chosen are the best of the eligible, as many as required or all, and the quorum is satisfied exactly when some required_count eligible candidates reach the threshold |
| `Quorum.ChooseValidators` | apps/api/lib/platform.mjs:2356-2445 | the candidate loop, sort, choice and quorum test, as the pure description has them |
| `Quorum.BestHasLargestMean` | apps/api/lib/platform.mjs:2432-2438 | the chosen entries are eligible, as many as required or all, and no other choice of as many has a larger mean |
| `Quorum.BestIsFirst` | apps/api/lib/platform.mjs:2432-2434 | the chosen are in order of score and then name, and none left out is better than one chosen |
| `Quorum.AverageBalances` | apps/api/lib/platform.mjs:2435-2438 | the average selection score is the value that the scores lie above and below by the same amount, 0 without entries |
| `Quorum.QuorumOptimal` | apps/api/lib/platform.mjs:2434-2440 | the quorum is satisfied if and only if some required_count eligible entries reach the consensus threshold |
| `Validation.ValidateValue` | apps/api/lib/validation.mjs:48-167 | the recursive method with its loops returns the outcome the pure description gives, issues in order |
| `Validation.ValidateObject` | apps/api/lib/validation.mjs:133-164 | the shape loop and the unknown-key loop together give an object's issues and its normalized fields |
| `Validation.ValidateArray` | apps/api/lib/validation.mjs:110-131 | length checks and the item loop together give an array's issues and normalized items |
| `Validation.ValidateExact` | apps/api/lib/validation.mjs:48-167 | validation fails exactly when it returns an issue, and succeeds exactly for the values the schema is meant to accept |
| `Validation.ValueOfDecimal` | apps/api/lib/validation.mjs:68-90 | digits with the point behind them are their number, moving the point one place multiplies by ten, and a sign negates |
| `ValidationProperties.AcceptedUnchanged` | apps/api/lib/validation.mjs:48-167 | an accepted value is handed on deeply equal, and validating what is handed on accepts it and changes nothing |
| `ValidationProperties.IssuesUnder` | apps/api/lib/validation.mjs:4-10 | every issue lies at or under the path of the value it is about |
| `ValidationProperties.IssuesPointAtFailures` | apps/api/lib/validation.mjs:48-167 | at every depth, a field or element fails exactly when an issue lies at or under its path |
| `ValidationProperties.UnknownReported` | apps/api/lib/validation.mjs:148-162 | a field outside a shape is reported by its own path exactly when the shape is closed |
| `SchemaCompiler.ToValidationSchema` | scripts/generate-openapi-artifacts.mjs:56-118 | the recursive method with its shape loop compiles as the pure description says |
| `SchemaCompiler.ResolveBelow` | scripts/generate-openapi-artifacts.mjs:21-32 | resolving references and allOf leaves neither, and with ranked reference names strictly less deep parts, so compilation ends |
| `SchemaCompiler.SpreadOverrides` | scripts/generate-openapi-artifacts.mjs:34-54 | in a merge of properties a key of the later schema has its last schema there, any other key keeps its earlier one |
| `SchemaMeaning.Resolves` | scripts/generate-openapi-artifacts.mjs:21-54 | a supported schema resolves to a plain one with the same meaning, property by property |
| `SchemaMeaning.MergedObeys` | scripts/generate-openapi-artifacts.mjs:34-54 | a merge of object schemas with disjoint properties holds of a value exactly when both hold |
| `SchemaMeaning.EnumFaithfulIff` | scripts/generate-openapi-artifacts.mjs:58-66 | an enum keeps its meaning exactly when null is a listed type just if it is an admitted value and its other values are scalars just if the type keyword admits them |
| `SchemaPreservation.CompilePreserves` | scripts/generate-openapi-artifacts.mjs:56-118 | for acyclic references and every supported schema, a value satisfies the schema exactly when it conforms to the compiled one |
| `SchemaPreservation.ValidatorDecidesMeaning` | scripts/generate-openapi-artifacts.mjs:56-118 | the validator under the compiled schema accepts exactly the values that satisfy the source schema |
| `SchemaLimits.ArrayFaithfulIff` | scripts/generate-openapi-artifacts.mjs:93-99 | an array schema keeps its meaning exactly when its bounds admit the empty array only or it has an item schema that keeps its own |
| `SchemaLimits.TypeListFaithfulIff` | scripts/generate-openapi-artifacts.mjs:68-75 | a list of types beside any bounds, items, properties and required keys keeps its meaning exactly when no other name of the list adds a value to the type it is compiled as, and that type, if listed, keeps its own |
| `SchemaLimits.BareTypeListFaithfulIff` | scripts/generate-openapi-artifacts.mjs:68-75 | without other keywords that is: beside null and unknown names it lists one scalar type, or number and then integer, or object |
| `SchemaLimits.RequiredFaithfulIff` | scripts/generate-openapi-artifacts.mjs:100-110 | an object schema with faithful properties keeps its meaning exactly when every required key is a property, or some required property admits no value |
| `SchemaLimits.UntypedNeverFaithful` | scripts/generate-openapi-artifacts.mjs:56-118 | a schema without type, enum and oneOf never keeps its meaning |
| `SchemaLimits.LostReferenceTakesObjects` | scripts/generate-openapi-artifacts.mjs:21-32 | a schema whose reference leads nowhere takes exactly the objects once compiled |
| `SchemaLimits.NullBranchesTakeObjects` | scripts/generate-openapi-artifacts.mjs:67-69 | a oneOf with no branch but null takes exactly objects and null |
| `SchemaLimits.UndeclaredRequired` | scripts/generate-openapi-artifacts.mjs:100-110 | an instance: a required key that is no property is asked for by the schema but not by the compiled one |
| `SchemaLimits.SecondTypeDropped` | scripts/generate-openapi-artifacts.mjs:70-72 | an instance: of a list of two non-null types only the first is kept |
| `SchemaLimits.UntypedItemsClosed` | scripts/generate-openapi-artifacts.mjs:93-99 | an instance: an array without an item schema admits only empty objects once compiled |

## Left out

- The x402 payment adapter: its implementing files are not part of this model.
- SQLite, HTTP, `fetch`, timers, file serving, logging, metrics, Prometheus text, budget hints and cost estimates; tables are maps and sequences with their uniqueness constraints.
- Cryptographic strength, and the passing from hexadecimal digests to text.
- IEEE rounding and numbers that are not finite.
- `undefined` inside values, and keys that live on `Object.prototype`.
- `TextDecoder`: the stream codec works on the decoded characters, cut anywhere.
- Reason codes, explanations, policy action lists and the other descriptive parts of resolutions, routings and events.
- The parts of a passport's metadata that registration, status changes and key rotations fill in; a rotation's metadata is an input.
- Dispute evaluation, executor routing, escrow, risk pricing, attestation, scenarios and war-room summaries; their traces carry no resolution and appear in runs as traces of that kind.
- Journal.ResolutionsReported: covers the events that announce stored passports, evidence, resolutions and receipts; alerts, drift events and the other derived events are left out, and a log is related to a run through its `trust.resolved` events.
- Platform.TrustPlatform.RecomputeSnapshot: takes the engine's `computeSnapshot` as an arbitrary function of the tables, subject and time, because the theorems about runs hold for any; the engine itself is modelled in `Snapshot`. Snapshot vectors and counts are stored as values, not as text.
- Platform.TrustPlatform.HandleEvidence: leaves out metrics, has its event in `Journal`, and takes the snapshot as above.
- Platform.TrustPlatform.ResolveTrust: leaves out reason codes, the context hash, the events derived from a change of trust and the descriptive parts of the response.
- Platform.TrustPlatform.CreatePassport: request bodies are hashed whole, but how their fields are read is a parameter, as it is for `recordEvidence`.
- TrustRuns.EveryReplayMatches: policy rows are taken to hold the policy their key names.
- Evidence in bundles has the shape that exports give it; hand-made bundles with missing fields are not modelled.
- EventDelivery.EndToEnd: what the server writes is any interleaving of the stream's events with greetings and heartbeats.
- EventRail.ExactlyOnce: event names and filters are already split texts, `since` is a number or not one.
- EvidenceTransfer.ListIsListed: orders ids and times by UTF-16 code units where SQLite compares bytes; the order of traces with equal times is the stable one.
- SignalLoops.AdversarialSignals: leaves out the positive and net scores, which only appear beside the risk signal.
- SignalLoops.CountEvents: leaves out the additional count of clean executions, which carries no penalty.
- Resolution.DerivePolicy: leaves out the reason codes and the summary text.
- SseCodec.HandleFrames: a data line with white space around or inside its JSON, which the server never writes, is dropped where the SDK would parse it.
- Webhooks.WebhookRail.FinishAttempt: leaves out the response status, the error text and the payload of the status event.
- Event names are decoded into the names the engine tests for; `Snapshot.Penalty` therefore takes names after normalisation, and names that carry no penalty are told apart only by what the engine reads of them.
- RateLimiter.NondecreasingRefines: buckets are without colons, as all configured ones are.
- Webhooks: URLs, secrets and signatures.
- Quorum.SelectValidators: leaves out the routing row and its trace, and gives a rejection its main reason only.
- Quorum: `mode` and the escalation action, which only appear in the response; the required count is a whole number.
- Validation.ValidateValue: issue paths are lists of segments before they are joined with dots, and messages are reduced to their code.
- SchemaPreservation.CompilePreserves: does not cover `allOf` parts with overlapping properties, `oneOf` with other than one branch and null, and schema-valued `additionalProperties`; the compiler overrides or drops parts of these. Lists of types, required keys that are no properties, arrays without items and schemas without a type are settled exactly in `SchemaLimits`.
- String lengths are UTF-16 code-unit counts, as the code has them.
