# Intelligence capital ledger — a Dafny model

This project models the core of the intelligence-capital ledger. The ledger
treats trained models and other intelligence capabilities as capitalized
financial assets. It records the lifecycle of each asset: capitalization,
allocation to an owner, utilization, depreciation and retirement. Each step
leaves immutable records behind: capital events, derived ledger entries and
double-entry journal entries. On request, the ledger also produces
hash-chained proofs of an asset's state.

The model has one module per source file:

| module | file | source |
|---|---|---|
| `Types` | `types.dfy` | `core/types.py`: enums, the five record kinds, the proof hash |
| `Depreciation` | `depreciation.dfy` | `core/depreciation.py`: the straight-line and declining-balance engines |
| `Ledger` | `ledger.dfy` | `core/ledger.py`: the store and its indexes, as a class with the store's invariant |
| `Integrity` | `integrity.dfy` | `core/integrity.py`: per-record validation, the batch check, the depreciation-overlap check |
| `LifecycleSpec` | `lifecycle_spec.dfy` | `core/lifecycle.py`: what each lifecycle operation does to the store, as functions and lemmas |
| `Lifecycle` | `lifecycle.dfy` | `core/lifecycle.py`: the lifecycle operations as methods on the ledger |
| `Proofs` | `proofs.dfy` | `core/proofs.py`: the proof generator, proof lookup, asset history |
| `Integration` | `integration.dfy` | `core/integration.py`: the attribution adapter |

How the source is represented:

- **The ledger.** It is a class whose fields are the source's dictionary, lists and three indexes. Its methods update those fields in place.
  - `Contents()` is the stored records as one `Store` value.
  - Every method states its new `Contents()` as a function of the old one.
  - Every method keeps `Valid()`. Assets are keyed by their own id. Events and proofs name stored assets. There is one derived entry per event. Proofs are chained. The indexes equal the filters of their lists. Every stored id is below the id counter.
- **Ids and timestamps.** Random UUIDs come from a counter (`nextId`), drawn in the same order as the source's `uuid4()` calls. Timestamps are a `now` parameter.
- **The hash.** The SHA-256 digest is an arbitrary function parameter (`sha256`). It is applied to the fields the source hashes, so everything proved holds for any digest function.
- **Failures.** Raised exceptions become `Failure`/`Fail` results. Every failure path leaves the store unchanged, as the source does, because each check comes before any write.
- **Money** is `real`.

## Model

Rows for definitions without a contract of their own name the lemmas that state their promises. The lookups `Ledger.PreviousHash`, `Integrity.ParseDate`, `Integration.IntegrationAdapter.ValidateAttribution` and `Integration.IntegrationAdapter.GetExecutionAttribution` have contracts that only split their cases. Their promises are carried by `Proofs.ProofChain` and `Proofs.SuccessiveProofsLinked`, by `Integrity.PeriodRejectedIffOverlap`, and by `Integration.MergeAcceptedBatch` and `Integration.MergedRecordIsTrue`.

| member | source | states |
|---|---|---|
| Types.EnumValuesDistinct | core/types.py:8-22 | two status (or method) members are equal exactly when their string values are equal |
| Types.BeforeIsStrictTotalOrder | core/integrity.py:52 | timestamp order is irreflexive, transitive and total, and `<=` is its reflexive closure |
| Types.HashIgnoresOtherFields | core/types.py:85-91 | the proof hash depends only on proof id, timestamp, content and previous hash |
| Types.ComputeHash | core/types.py:85-91 | `compute_hash`: the digest of the preimage of proof id, timestamp, content and previous hash. No contract of its own: its partners are `HashIgnoresOtherFields`, `MissingAndEmptyPreviousHashAlike` and `InsertionOrderDoesNotChangeHash` |
| Types.MissingAndEmptyPreviousHashAlike | core/types.py:89 | a missing previous hash and an empty one give the same hash (`or ''`) |
| Types.InsertionOrderDoesNotChangeHash | core/types.py:88 | content built from the same distinct-keyed pairs in any order hashes the same (`sort_keys=True`) |
| Depreciation.JanuaryToJuneIsFiveMonths | core/depreciation.py:53 | month counting ignores days: 1 January to 1 June is five months |
| Depreciation.MonthsBetween | core/depreciation.py:53 | the whole months from start to end: 12 per year plus the month difference, day and time ignored. Its partners are `JanuaryToJuneIsFiveMonths` and `MonthsFollowOrder` |
| Depreciation.MonthsFollowOrder | core/depreciation.py:53 | for calendar months, a positive month count means the window runs forward in time, and a forward window never counts negative months |
| Depreciation.ValueAfter | core/depreciation.py:63 | the new value `max(salvage, current or initial − amount)`: never below salvage, and max(salvage, current value) whenever a current value counts, whatever the amount |
| Depreciation.LinearDepreciation | core/depreciation.py:35-65 | non-positive months give amount 0 and the book value. A zero life fails. Otherwise the amount is (initial − salvage)·months/life and the new value is at least salvage |
| Depreciation.ScheduleInvariant | core/depreciation.py:94-104 | the declining loop conserves amount + running value. An early stop takes exactly what is above salvage. A full run stays at or above salvage. The amount stays between 0 and the value above salvage |
| Depreciation.Schedule | core/depreciation.py:94-104 | the declining loop as a recursion over the months left, with the early break at salvage. Its promises are stated by `ScheduleInvariant` |
| Depreciation.DecliningBalanceValue | core/depreciation.py:68-108 | declining balance as a value: no months, a zero-life failure, or the schedule from the book value at multiplier/life per month. Its promises are stated by `DecliningBalanceBounds` and `DecliningNewValueIsFinalRunning` |
| Depreciation.DecliningBalanceDepreciation | core/depreciation.py:68-108 | the month-by-month loop with its early break computes the declining-balance schedule exactly |
| Depreciation.CalculateDepreciation | core/depreciation.py:7-32 | dispatches on the asset's method to the straight-line or declining-balance result |
| Depreciation.Depreciation | core/depreciation.py:7-32 | the dispatch as a value, which `CalculateDepreciation` is proved to compute. Its promises are stated by `NoMonthsNoDepreciation` and `NewValueNotBelowSalvage` |
| Depreciation.NoMonthsNoDepreciation | core/depreciation.py:53-56 | by either method, non-positive months give amount 0 and the book value. The only failure is a zero life over positive months |
| Depreciation.NewValueNotBelowSalvage | core/depreciation.py:63 | the new value is never below salvage. With a non-zero current value it is max(salvage, current value) whatever the amount (operator precedence as written) |
| Depreciation.DecliningBalanceBounds | core/depreciation.py:91-104 | with a non-negative rate and salvage at or below the book value, 0 ≤ amount ≤ book value − salvage, and after an early stop the amount is exactly book value − salvage |
| Depreciation.DecliningNewValueIsFinalRunning | core/depreciation.py:92-106 | without a current value, the returned new value is the loop's final running value, or salvage after an early stop |
| Depreciation.DecliningExampleExceedsLinear | core/depreciation.py:85-106 | 10000 over a 12-month life, January to June, double-declining, for an asset with no current value: the amount exceeds 5000, the new value is below 5000, and the linear amount is below 5000 |
| Depreciation.DecliningExampleCreatedAsset | core/depreciation.py:85-106 | the same example for an asset as `create_asset` makes it (current value equal to initial value): the amount still exceeds 5000, but the new value stays 10000 |
| Depreciation.ScheduleNeverExhausts | core/depreciation.py:94-104 | with no salvage and a monthly rate below one, the loop never breaks early and never takes the whole running value |
| Depreciation.DecliningFullLifeBelowLinear | core/depreciation.py:35-106 | for an asset with no current value, over the whole useful life with no salvage and a multiplier below the life, straight line takes the full initial value and declining balance takes strictly less |
| Ledger.EventsOfMembers | core/ledger.py:118-120 | an asset's event list holds exactly the stored events of that asset |
| Ledger.EntriesOfMembers | core/ledger.py:122-124 | an asset's entry list holds exactly the stored entries of that asset |
| Ledger.JournalWithEventsMembers | core/ledger.py:132-135 | the journal filter keeps exactly the entries whose event id is in the set |
| Ledger.ProofsOfMembers | core/ledger.py:89 | an asset's proof list holds exactly the stored proofs of that asset |
| Ledger.PreviousHash | core/ledger.py:88-90 | the previous hash is the hash of the asset's last proof, or none when it has no proof |
| Ledger.NewAsset | core/ledger.py:45-53 | a created asset carries the given fields, is active, and has current value equal to its initial value |
| Ledger.EntryFor | core/ledger.py:66-74 | the ledger entry derived from an event: its ids, asset and time, the details' amount (0.0 when absent), type and details. `AddEventKeepsValid` and `Proofs.PairedCounts` state what the pairing gives |
| Ledger.FreshAsset | core/types.py:25-35 | an asset built without status or value defaults to active with no current value |
| Ledger.AssetSnapshot | core/ledger.py:100-108 | a proof's content has exactly seven keys |
| Ledger.SnapshotDeterminesAsset | core/ledger.py:100-108 | equal snapshots mean equal assets apart from creation time |
| Ledger.NewProof | core/ledger.py:88-110 | a new proof has origin "ICL", the asset's snapshot, a link to the asset's last proof, and a stored hash equal to its recomputed hash |
| Ledger.AddAssetKeepsValid | core/ledger.py:42-54 | adding an asset under a new id keeps the store valid |
| Ledger.SetAssetKeepsValid | core/lifecycle.py:67 | updating a stored asset in place keeps the store valid and its ids |
| Ledger.AddEventKeepsValid | core/ledger.py:59-76 | recording an event of a stored asset, with its derived entry, keeps the store valid |
| Ledger.ChainLinkedAppend | core/ledger.py:88-111 | a proof linked to its asset's last proof and carrying its own hash extends a linked chain |
| Ledger.AddProofKeepsValid | core/ledger.py:85-111 | appending the generated proof keeps the store valid |
| Ledger.AllPositiveAppend | core/ledger.py:141 | the all-positive check of a list plus one entry is the check of the list and of the entry |
| Ledger.AllPositive | core/ledger.py:141 | true exactly when every amount in the list is positive |
| Ledger.IndexesAfterEvent | core/ledger.py:62-76 | after `record_event` the per-asset indexes are still the filters of the lists |
| Ledger.IndexesAfterJournal | core/ledger.py:80-81 | after `record_journal_entry` the per-event journal index is still the filter of the journal |
| Ledger.FreshIdKeepsInvariant | core/ledger.py:67 | drawing an id keeps the ledger invariant |
| Ledger.AddAssetKeepsInvariant | core/ledger.py:42-54 | `create_asset`'s update keeps the ledger invariant |
| Ledger.RecordEventKeepsValid | core/ledger.py:59-76 | `record_event`'s update keeps the ledger invariant |
| Ledger.AddJournalKeepsInvariant | core/ledger.py:78-81 | `record_journal_entry`'s update keeps the ledger invariant |
| Ledger.AddProofKeepsInvariant | core/ledger.py:85-111 | `generate_proof`'s update keeps the ledger invariant |
| Ledger.SetAssetKeepsLedgerValid | core/lifecycle.py:67 | an in-place asset update keeps the ledger invariant |
| Ledger.CapitalLedger.constructor | core/ledger.py:21-31 | a new ledger is empty and valid |
| Ledger.CapitalLedger.FreshId | core/ledger.py:67 | returns the counter and advances it, so it is above every stored id. The store is unchanged and the invariant is kept |
| Ledger.CapitalLedger.CreateAsset | core/ledger.py:33-55 | a duplicate id fails and changes nothing. Otherwise exactly the new asset is added, and the ledger stays valid |
| Ledger.CapitalLedger.RecordEvent | core/ledger.py:57-76 | an unknown asset fails and changes nothing. Otherwise the event and its derived entry are appended (amount = details "amount" or 0.0) and the indexes follow |
| Ledger.CapitalLedger.AppendEvent | core/ledger.py:62-76 | the append half of `record_event`: the event and its entry are appended, and the ledger stays valid |
| Ledger.CapitalLedger.RecordJournalEntry | core/ledger.py:78-81 | the journal entry is appended unconditionally and indexed by its event id |
| Ledger.CapitalLedger.GenerateProof | core/ledger.py:83-112 | an unknown asset fails and changes nothing. Otherwise exactly one chained, hashed proof is appended |
| Ledger.CapitalLedger.GetAsset | core/ledger.py:114-116 | the asset is found exactly when its id is stored, and it is the stored asset, which carries that id |
| Ledger.CapitalLedger.GetEventsForAsset | core/ledger.py:118-120 | the index lookup equals the asset's events in recording order |
| Ledger.CapitalLedger.GetEntriesForAsset | core/ledger.py:122-124 | the index lookup equals the asset's entries in recording order |
| Ledger.CapitalLedger.GetJournalEntriesForAsset | core/ledger.py:126-135 | the journal filtered, in posting order and with repeats kept, to the entries whose event id is the id of one of the asset's events |
| Ledger.CapitalLedger.VerifyJournalBalance | core/ledger.py:137-141 | true exactly when every journal amount is positive (true on an empty journal) |
| Integrity.ValidateAsset | core/integrity.py:24-33 | passes exactly when the owner is non-empty and value and life are positive. Otherwise it reports the first broken rule in source order |
| Integrity.ValidateEvent | core/integrity.py:35-42 | passes exactly when the asset is known and the type is non-empty. The unknown asset is reported first |
| Integrity.ValidateEntry | core/integrity.py:44-53 | passes exactly when the asset is known and the entry is not earlier than the last stored entry |
| Integrity.AssetReportsSpec | core/integrity.py:59-64 | no asset reports exactly when every asset passes. There is at most one report per asset, each of asset kind |
| Integrity.EventReportsSpec | core/integrity.py:66-71 | no event reports exactly when every event passes. There is at most one report per event |
| Integrity.EntryReportsSpec | core/integrity.py:73-78 | no entry reports exactly when every entry passes. There is at most one report per entry |
| Integrity.AllReportsEmptyIff | core/integrity.py:55-80 | the batch check is empty exactly when every asset, event and entry passes |
| Integrity.AllReports | core/integrity.py:55-80 | the batch report: asset reports in insertion order, then event reports, then entry reports. Its promises are stated by `AllReportsEmptyIff` and `BatchComparesWithLast` |
| Integrity.BatchComparesWithLast | core/integrity.py:50-53 | in the batch check a stored entry is out of order exactly when it is earlier than the last stored entry. The last entry always passes |
| Integrity.OrderedPairIsReported | core/integrity.py:74-78 | two entries stored in increasing time: the earlier one is reported out of order |
| Integrity.ReversedPairPasses | core/integrity.py:74-78 | two entries stored in decreasing time: nothing is reported |
| Integrity.ParseDate | core/integrity.py:97-98 | a period bound is read when present as a date. Otherwise it fails naming the key |
| Integrity.OverlapsProperties | core/integrity.py:100 | the closed-interval overlap test is symmetric, touching ends overlap, and disjoint periods do not |
| Integrity.Overlaps | core/integrity.py:100 | the closed-interval test `start <= dep_end and end >= dep_start`. Its promises are stated by `OverlapsProperties` |
| Integrity.PeriodCheck | core/integrity.py:96-104 | one prior depreciation event: its start, then its end, must be readable, then the windows must not overlap. Its promises are stated by `FirstConflict` and `PeriodRejectedIffOverlap` |
| Integrity.DepreciationEventsMembers | core/integrity.py:90-93 | the filter keeps exactly the events of type "depreciation" |
| Integrity.FirstConflict | core/integrity.py:95-104 | passes exactly when every prior period passes. A failure is the failure of some prior period |
| Integrity.PeriodRejectedIffOverlap | core/integrity.py:88-104 | with well-formed dates, a period is rejected exactly when it overlaps a prior depreciation period of the asset |
| Integrity.NoDepreciationEventsPass | core/integrity.py:88-104 | with no depreciation events, any period passes |
| Integrity.IntegrityChecker.constructor | core/integrity.py:21-22 | the checker reads the given ledger |
| Integrity.IntegrityChecker.CheckAllIntegrity | core/integrity.py:55-80 | the three loops give the batch reports, which are empty exactly when every record passes |
| Integrity.IntegrityChecker.ValidateDepreciationPeriod | core/integrity.py:88-104 | the scan returns the first conflict among the asset's depreciation events |
| Integrity.IntegrityChecker.EnsureNoRetroactiveModification | core/integrity.py:82-86 | always passes |
| LifecycleSpec.WriteOffValue | core/lifecycle.py:170-181 | the write-off amount is non-negative and positive exactly when a write-off is posted |
| LifecycleSpec.AfterCapitalize | core/lifecycle.py:22-57 | the store after `capitalize`: the new asset added and its capitalization entry posted. Its promises are stated by `CapitalizeEffects` |
| LifecycleSpec.AfterAllocate | core/lifecycle.py:59-80 | the store after `allocate`: the owner changed and the allocation event recorded. Its promises are stated by `AllocateEffects` |
| LifecycleSpec.AfterUtilize | core/lifecycle.py:82-92 | the store after `utilize`: the utilization event recorded. Its promises are stated by `UtilizeEffects` |
| LifecycleSpec.AfterDepreciate | core/lifecycle.py:94-149 | the store after `depreciate`: the new current value, the depreciation event and, for a positive amount, the posting. Its promises are stated by `DepreciateEffects` and `DepreciatePostings` |
| LifecycleSpec.AfterRetire | core/lifecycle.py:151-186 | the store after `retire`: the retired status, the retirement event and, for a positive current value, the write-off. Its promises are stated by `RetireEffects` and `RetirePostings` |
| LifecycleSpec.CapitalizeEffects | core/lifecycle.py:22-57 | capitalize adds exactly one asset (active, current value = initial value) and no event. It posts one journal entry (debit Asset, credit Accumulated Depreciation, initial value) whose event id no event has. It keeps positive balances when the value is positive |
| LifecycleSpec.AllocateEffects | core/lifecycle.py:59-80 | allocate changes only the owner of that asset and records one "allocation" event with from and to owner. Only that asset's events grow, and the journal is unchanged |
| LifecycleSpec.UtilizeEffects | core/lifecycle.py:82-92 | utilize leaves assets and journal unchanged and records one "utilization" event carrying the amount |
| LifecycleSpec.DepreciationDetails | core/lifecycle.py:119-125 | a depreciation event's details have exactly five keys, holding amount, period bounds, salvage and multiplier |
| LifecycleSpec.DepreciationEntry | core/lifecycle.py:129-146 | the depreciation posting debits expense and credits accumulated depreciation for the amount, linked to the event. Its metadata has the keys asset id, previous and new value plus the event's detail keys, every detail overriding |
| LifecycleSpec.DepreciationPostingMetadata | core/lifecycle.py:119-146 | for a depreciation event, the posting's metadata has exactly eight keys: asset id, previous and new value, and the five details, none hidden by another |
| LifecycleSpec.DepreciateEffects | core/lifecycle.py:110-127 | depreciate changes only that asset's current value and records one depreciation event |
| LifecycleSpec.DepreciatePostings | core/lifecycle.py:129-147 | exactly one posting when the amount is positive, none otherwise. Positive balances are kept |
| LifecycleSpec.RetireEffects | core/lifecycle.py:157-167 | retire changes only that asset's status, to retired, and records one "retirement" event with empty details |
| LifecycleSpec.RetirePostings | core/lifecycle.py:169-184 | exactly one write-off of the current value when it is positive, none otherwise. Positive balances are kept |
| Lifecycle.CapitalLifecycle.constructor | core/lifecycle.py:19-20 | the manager drives the given ledger |
| Lifecycle.CapitalLifecycle.WriteBack | core/lifecycle.py:67 | writing an updated copy of a stored asset back replaces exactly that asset |
| Lifecycle.CapitalLifecycle.RecordNewEvent | core/lifecycle.py:84-91 | an event built under a fresh id is recorded |
| Lifecycle.CapitalLifecycle.UpdateAndRecord | core/lifecycle.py:157-167 | the asset update followed by its event |
| Lifecycle.CapitalLifecycle.PostEntry | core/lifecycle.py:132-147 | a journal entry built under a fresh id is posted |
| Lifecycle.CapitalLifecycle.UpdateRecordPost | core/lifecycle.py:110-147 | update, event, then a posting when asked |
| Lifecycle.CapitalLifecycle.Capitalize | core/lifecycle.py:22-57 | a duplicate id fails and changes nothing. Otherwise the asset is returned and the store becomes the capitalize result |
| Lifecycle.CapitalLifecycle.PostCapitalization | core/lifecycle.py:41-55 | the capitalization journal entry under two fresh ids |
| Lifecycle.CapitalLifecycle.Allocate | core/lifecycle.py:59-80 | an unknown asset fails and changes nothing. Otherwise the event is returned and the store becomes the allocate result |
| Lifecycle.CapitalLifecycle.Utilize | core/lifecycle.py:82-92 | an unknown asset fails and changes nothing. Otherwise the store becomes the utilize result |
| Lifecycle.CapitalLifecycle.Depreciate | core/lifecycle.py:94-149 | an unknown asset, an overlapping period or a failed calculation fails and changes nothing. Otherwise the store becomes the depreciate result for the computed quote |
| Lifecycle.CapitalLifecycle.ApplyQuote | core/lifecycle.py:110-147 | the depreciate update, event and conditional posting for a quote |
| Lifecycle.CapitalLifecycle.Retire | core/lifecycle.py:151-186 | an unknown asset fails and changes nothing. Otherwise the store becomes the retire result |
| Proofs.EntriesWithEventMembers | core/proofs.py:56 | the entry filter keeps exactly the entries of the event |
| Proofs.History | core/proofs.py:53-58 | one group per event, in order, each holding exactly the entries carrying that event's id |
| Proofs.PairedCounts | core/ledger.py:66-76 | with one derived entry per event, an asset's entries with an event id are as many as its events with that id |
| Proofs.HistoryGroupsHaveOneEntry | core/proofs.py:53-58 | with distinct event ids, each history group of a valid ledger holds exactly one entry, of that event and asset |
| Proofs.FirstProofIndex | core/proofs.py:42-44 | the scan position is the first proof with the id, or the end |
| Proofs.FindProof | core/proofs.py:40-45 | none exactly when no stored proof has the id. Otherwise a stored proof with that id |
| Proofs.GeneratedProofIsFound | core/proofs.py:40-45 | a just-generated proof is found again by its id |
| Proofs.ProofChain | core/ledger.py:88-90 | an asset's proofs form a chain: the first links to none, each later one to the hash of the one before |
| Proofs.StoredHashesRecompute | core/ledger.py:110 | recomputing the hash of a stored proof reproduces its stored hash |
| Proofs.SuccessiveProofsLinked | core/ledger.py:88-99 | the second of two proofs generated for one asset links to the first's hash |
| Proofs.CapitalProofGenerator.constructor | core/proofs.py:10-11 | the generator drives the given ledger |
| Proofs.CapitalProofGenerator.GenerateAssetProof | core/proofs.py:13-19 | an unknown asset fails and changes nothing. Otherwise it is the ledger's proof generation with no event id |
| Proofs.CapitalProofGenerator.GenerateExecutionProof | core/proofs.py:21-28 | the ledger's proof generation with the event id passed through |
| Proofs.CapitalProofGenerator.GenerateFinancialOutcomeProof | core/proofs.py:30-38 | the ledger's proof generation with no event id. The period bounds are ignored |
| Proofs.CapitalProofGenerator.ReconstructProof | core/proofs.py:40-45 | the scan returns the first stored proof with the id, or none, and changes nothing |
| Proofs.CapitalProofGenerator.GetAssetHistory | core/proofs.py:47-58 | the history of the asset's events and entries as read from the ledger |
| Integration.ParseAttribution | core/integration.py:8-14 | an accepted record has every required field, and a numeric cost and time above zero taken from the fields |
| Integration.ParseAttributionAccepts | core/integration.py:10-14 | the schema accepts exactly the records with the required fields and positive numeric cost and time |
| Integration.Validate | core/integration.py:28-34 | a non-dictionary value is kept unchanged. A dictionary passes exactly when the schema accepts it |
| Integration.FirstInvalid | core/integration.py:27-32 | the position of the first value that fails, or the end |
| Integration.ValidateBatch | core/integration.py:27-34 | the loop as a value: the first invalid value rejects under its key, otherwise a later key replaces an earlier one. Its promises are stated by `BatchRejectsFirstInvalid`, `AcceptedBatchKeys`, `AcceptedBatchValues` and `AcceptedBatchBounds` |
| Integration.BatchRejectsFirstInvalid | core/integration.py:26-32 | a batch is rejected exactly when a value fails, under the key of the first that fails |
| Integration.RejectedPrefixRejects | core/integration.py:29-32 | raising at the first failure gives the whole batch's verdict |
| Integration.AcceptedBatchKeys | core/integration.py:26-36 | an accepted batch stores exactly its keys |
| Integration.AcceptedBatchValues | core/integration.py:27-34 | each key holds the validated value of its last occurrence |
| Integration.AcceptedBatchBounds | core/integration.py:11-12 | every stored schema record has positive cost and time |
| Integration.MergeAcceptedBatch | core/integration.py:36 | after the update each batch key holds its validated value, and keys outside the batch keep theirs |
| Integration.MergedRecordIsTrue | core/integration.py:36-48 | after the update, a schema record stored for a key reads as true |
| Integration.Truthy | core/integration.py:46 | Python truthiness of a stored value: a validated record is true; none, the empty string and zero are false. `MergedRecordIsTrue` states what it gives after an update |
| Integration.IntegrationAdapter.constructor | core/integration.py:20-22 | the adapter starts with no attribution data |
| Integration.IntegrationAdapter.ConsumeIcaeAttribution | core/integration.py:24-36 | all or nothing: a failing batch leaves the data unchanged. An accepted one is merged in |
| Integration.IntegrationAdapter.ValidateAttribution | core/integration.py:43-48 | true exactly when a value is stored under the asset's key and it is truthy. Execution details are ignored |
| Integration.IntegrationAdapter.GetExecutionAttribution | core/integration.py:50-52 | the value stored under the asset's key, or none |

## Left out

- `export_audit_trail` (core/ledger.py:143-158): JSON and CSV formatting only.
- SHA-256 and `json.dumps`: the digest is an arbitrary function of the hashed fields. No collision resistance is assumed or proved.
- Pydantic internals: type coercion of the attribution fields, datetime parsing, and extra-field handling are not modelled. The schema checks the required fields and the two `gt=0` bounds. Cost and time must be numbers (float or int).
- Non-scalar values (lists, nested objects) in a batch, event details or metadata: values are the scalars of `Types.Scalar`.
- `emit_to_financial_system` and `reconcile_with_financial_systems` (core/integration.py:38-41, 54-60): constant stubs with no state.
- `uuid4()` and `datetime.now()`: ids come from a counter, and timestamps are a parameter.
- Ledger.CapitalLedger.CreateAsset, Ledger.CapitalLedger.RecordEvent, Ledger.CapitalLedger.RecordJournalEntry: the id counter moves above every caller-supplied id (asset id; event id; entry and event id), so later drawn ids cannot collide with it. A random UUID gives no such guarantee.
- `isoformat`/`fromisoformat` (core/lifecycle.py:121-122, core/integrity.py:97-98): dates are stored in event details as dates. Reading a missing or non-date bound fails with `BadDetail`.
- Floating-point rounding: money is exact `real`.
- Default arguments (`salvage_value=0.0`, `rate_multiplier=2.0` in core/depreciation.py:7-12 and core/lifecycle.py:94-100): the model's operations take them as required parameters; calling with the defaults is the case of passing 0.0 and 2.0.
- The `defaultdict` side effect of reading a missing index key: it inserts an empty list, which no operation can observe.
- `core/__init__.py` only re-exports names; it is not part of this model.
- Asset aliasing: the lifecycle operations mutate the asset object that `get_asset` returns. The model writes the updated copy back into the dictionary, which leaves the same store.
- The "unsupported depreciation method" branch (core/depreciation.py:31-32) cannot be reached with a closed two-member enum.
- Depreciation.CalculateDepreciation: a zero-month useful life over a positive period is modelled as a `DivisionByZero` failure, standing for Python's `ZeroDivisionError`.
- Lifecycle.CapitalLifecycle.Capitalize: the journal entry is posted under an event id that no event carries, so it is invisible to `get_journal_entries_for_asset`. `LifecycleSpec.CapitalizeEffects` states this at store level; the method itself does not restate it.
- Proofs.HistoryGroupsHaveOneEntry: the one-entry-per-group property holds only when event ids are distinct. The ledger does not enforce this for events that callers record directly, so it is a precondition.
- Integration.IntegrationAdapter.GetExecutionAttribution: a `None` stored under the key is returned as `Some(Kept(Null))`; Python's `.get` cannot tell it from a missing key.
- Integration.IntegrationAdapter.ValidateAttribution: asset ids are rendered to keys by a parameter function standing for `str(UUID)`.
