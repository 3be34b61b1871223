# Verified model of the PC-builder repository

A Dafny model of the parts of the PC-builder repository that carry state over many steps: the
automated product-image pipeline, the request gate, the builder state machine, the manual part
picker, the pricing runner, buyer notes and the guarded schema migrations. Every operation is
written as the source has it, and the properties are proved for all inputs, all runs or all
reachable states. `dafny verify dfyconfig.toml` checks everything.

| file | what it models |
|---|---|
| `Basics.dfy` | options, string order, a stable sort |
| `CatalogStore.dfy` | image rows, stored objects, and the writes on them |
| `Icecat.dfy` | one Icecat reply, and the filtering and ranking of its gallery |
| `IntakeLaws.dfy` | which products a run loads and which images it considers |
| `PipelineSpec.dfy` | one pipeline run as a function of the world, the rows and the products |
| `Pipeline.dfy` | the engine as a class that changes rows, objects and report in place, proved against `PipelineSpec` |
| `OwnershipLaws.dfy`, `RunLaws.dfy`, `RerunLaws.dfy`, `ReportLaws.dfy` | what holds of every run |
| `PipelineLease.dfy` | the run lease, and interleavings of contenders |
| `RateLimiter.dfy`, `RequestGate.dfy` | the limiter and the security middleware |
| `BuilderMachine.dfy`, `ValidationEffect.dfy` | the builder state machine; the picker's validation effect |
| `CheapestProducts.dfy`, `Pagination.dfy`, `V1Mapping.dfy` | grouping by cheapest, page loading, legacy ids |
| `BuyerNotes.dfy`, `PricingGate.dfy`, `Migrations.dfy` | note normalisation, gated ingestion, schema changes |

How it is built. Code that changes things in place is a class or a method with loops
(`AutomatedImagePipeline`, `LeaseTable`, `Limiter`, `Gate`, `PricingRunner`, `Database`,
`ExtractImages`, `CheapestListings`, `DedupeProducts`, `MapSelection`), and each method's contract
gives its whole new state by a specification function. The laws are then lemmas about those
functions.

What is assumed of the world:

- Icecat, downloads, image decoding, the object store and the pricing service are parameters. The
  pipeline's are finite maps, so an answer does not change within a run, and a missing key is a
  failed call. The pricing service and the builder backend may answer differently every time.
- A database failure strikes a given product and checksum always or never, anywhere in the demote,
  save and commit block; its transaction is rolled back and the session goes on.
- Rows are in insertion order, and an unordered "first match" query returns the first inserted row.
- The product table is given in (category, id) order. Object keys are triples; a checksum is
  hexadecimal, so the path string is injective in them.
- The audit log is the gate's own events. Services write further ones (for instance
  `backend/app/services/ops.py:531`), always without an idempotency key, so no key is seen through them.
- `idempotency_seen` is the query in `backend/app/graph/ops_repository.py:206-218`: a succeeded
  audit event with this endpoint and key.

Where the code differs from its own documentation, the model follows the code:

- "Re-running does not create duplicate records" (`automated_image_pipeline.py:15`) holds for a
  table of rows if and only if the rows are settled: every stored checksum that no other product has
  is approved at its first match, unless saving it raises. A pending or rejected row is enough to
  break it (`RerunLaws.NoDuplicatesIffSettled`). In the default mode, which skips finished products,
  an immediate second run is quiet even so (`RerunLaws.DefaultRerunsAreQuietIff`).
- The last sort key puts the oldest update first; line 220 says most recent
  (`Icecat.OlderUpdateRanksFirst`).
- A 403 from Icecat is an ordinary miss. SOURCE_LOCKED is reached only by a body with
  `"data": false` (`RunLaws.HttpErrorIsNoMatch`, `RunLaws.LockedIff`).
- A detail upload is counted before its row is written, so a database failure leaves the upload
  count ahead of the rows (`ReportLaws.ReportConservation`).
- A failed upload is labelled retryable, but the candidate loop looks only for an approval, so the
  product ends as rejected (`RunLaws.FirstAcceptableWins`).
- `rejected_images` is counted twice for every rejected product (lines 639 and 775), and only
  `products_scanned` is reset by a second `run()` (`ReportLaws.ReportConservation`,
  `ReportLaws.LaterCoverage`).
- "Mutation already completed for this idempotency key" (`main.py:223`) can follow a mere GET, on
  exactly the paths that have a rule for GET and one for another method
  (`RequestGate.DuplicateMessageIff`).
- A listing that has a blank image URL, and no other, refuses the image a duplicate could give it,
  both when it stays and when it replaces a dearer listing that had one
  (`CheapestProducts.ImageCarriedIffClean`).
- A retry that succeeds while a later page is outstanding leaves a gap in the product list, or, if
  that page was the empty one at the end, cuts the list short for good
  (`Pagination.RetryKeepsPromiseIff`), and clearing the selection while a reply is awaited leaves the
  spinner on (`ValidationEffect.SpinnerStuckIff`).
- Two pricing batches of one category share one report row, so the table can disagree with the
  totals (`PricingGate.TableAddsUpIff`).
- The migrations guarantee their indexes only on tables they created
  (`Migrations.IndexesAreGuaranteedIff`), and a downgrade also removes objects that were there before
  the upgrade (`Migrations.RoundTripIff`).

## Model

| member | source | states |
|---|---|---|
| RerunLaws.IdempotentIffSettled | backend/app/catalog/automated_image_pipeline.py:560-646 | a second forced run over the same batch in the same world inserts and demotes nothing, leaves rows and objects untouched and gives every product the same final state, for all worlds and batches, if and only if the starting rows are settled and every save that raises is of a checksum some row already has |
| RerunLaws.DefaultRerunsAreQuietIff | backend/app/catalog/automated_image_pipeline.py:586-604 | the same for two default runs over any product table, the second skipping finished products: whatever the rows, exactly when every save that raises is of a finished product or of a checksum some row already has |
| RerunLaws.NoDuplicatesIffSettled | backend/app/catalog/automated_image_pipeline.py:15 | no run ever inserts a product and checksum that already has a row, if and only if the rows are settled |
| RerunLaws.AllApprovedIsSettled | backend/app/catalog/automated_image_pipeline.py:709-715 | a table in which every row is approved is settled, whatever saves raise |
| RerunLaws.CandidatesShareMetadata | backend/app/catalog/automated_image_pipeline.py:174-222 | all candidates of one product carry the same brand and part number |
| RerunLaws.Revisit | backend/app/catalog/automated_image_pipeline.py:709-722 | the induction behind both: a product's turn, seen again after the run, gives the same state and only repeats uploads, if the rows were settled or it inserted nothing |
| RerunLaws.OwnersStayInRun | backend/app/catalog/automated_image_pipeline.py:365-372 | a run never gives a recorded checksum another owner |
| OwnershipLaws.OwnershipAtEveryStop | backend/app/catalog/automated_image_pipeline.py:717-757 | wherever a run stops, between any two writes: at most one primary row per product, no checksum shared by two products, and every inserted row has its card, summary and detail objects stored |
| OwnershipLaws.PrimaryNeverLost | backend/app/catalog/automated_image_pipeline.py:375-428 | a product that had a primary image has one at every stop except between the demotion and the insertion of one uncommitted block |
| OwnershipLaws.InsertLeavesOnePrimary | backend/app/catalog/automated_image_pipeline.py:747-757 | right after an insertion the inserted row is its product's only primary |
| RunLaws.DryRunIsExactIff | backend/app/catalog/automated_image_pipeline.py:724-757 | dry run and real run agree on every verdict and winning rank if and only if the new checksums the dry run would approve are pairwise different and all their uploads and saves go through |
| RunLaws.DryRunPredictsRealRun | backend/app/catalog/automated_image_pipeline.py:724-757 | they agree when no two products offer the same image and every upload and save goes through |
| RunLaws.DryRunOverApproximates | backend/app/catalog/automated_image_pipeline.py:586-604 | without a limit, every product a real run approves is loaded and approved by a dry run from the same database, at the same or an earlier candidate |
| RunLaws.RealRunIsCovered | backend/app/catalog/automated_image_pipeline.py:564-646 | the same for the products still to come, whatever the earlier ones wrote |
| RunLaws.DryRunWritesNothing | backend/app/catalog/automated_image_pipeline.py:527-527 | a dry run makes no write, so each product is judged against the original rows |
| RunLaws.FirstAcceptableWins | backend/app/catalog/automated_image_pipeline.py:633-646 | the winner is exactly the first ranked candidate that decodes at 600 pixels or more and is already approved, or is unconflicted, has metadata and (in a real run) uploads and saves; the product is rejected exactly when no candidate is acceptable or raises; it is retryable exactly when the first to stop the scan raises, in the decoder or in the database |
| RunLaws.JudgeMeans | backend/app/catalog/automated_image_pipeline.py:684-760 | one attempt approves exactly the acceptable images and raises exactly when the decoder does or the database does after the uploads |
| RunLaws.RejectionMeans | backend/app/catalog/automated_image_pipeline.py:695-745 | which reason a rejected candidate gets, in the order of the checks |
| RunLaws.AutoApprovalMeans | backend/app/catalog/automated_image_pipeline.py:484-492 | auto-approval needs no conflict, both dimensions of 600 or more, and both identifiers |
| RunLaws.HttpErrorIsNoMatch | backend/app/catalog/automated_image_pipeline.py:150-165 | an HTTP error, 403 included, ends as NO_EXACT_MATCH and never as locked |
| RunLaws.LockedIff | backend/app/catalog/automated_image_pipeline.py:657-682 | SOURCE_LOCKED if and only if credentials are configured and a reply's data is the literal false: the GTIN reply's, or the second one's when the GTIN request is skipped, fails or has no usable image |
| Icecat.ExtractImages | backend/app/catalog/automated_image_pipeline.py:194-222 | the gallery loop and its sort compute `RankedImages` |
| Icecat.RankedImagesIsRanking | backend/app/catalog/automated_image_pipeline.py:194-222 | the ranking is sorted, stable, and a permutation of the collected candidates |
| Icecat.CandidatesInOrder | backend/app/catalog/automated_image_pipeline.py:194-219 | one candidate for every non-private item with a URL, in gallery order: full picture before small one, dimensions only if both can be read |
| Icecat.MainThenLargeThenOld | backend/app/catalog/automated_image_pipeline.py:221-221 | field by field: main images first, then larger areas, then lexicographically smaller stamps |
| Icecat.OlderUpdateRanksFirst | backend/app/catalog/automated_image_pipeline.py:220-221 | among images alike in kind and area the older stamp ranks strictly first |
| CatalogStore.ExistingImage | backend/app/catalog/automated_image_pipeline.py:356-362 | the first row of this product and checksum: none exactly when there is no such row, approved exactly when the first one is |
| Pipeline.AutomatedImagePipeline.Run | backend/app/catalog/automated_image_pipeline.py:560-584 | the loop with its exception handler produces exactly the specified rows, objects, write log and report; every loaded product is an approved catalog entry that fits the requested id and category and, outside force and dry runs, has no approved primary image; every write is for one of them |
| IntakeLaws.LoadsInOrder | backend/app/catalog/automated_image_pipeline.py:586-604 | the loaded products are exactly the catalog entries that may be loaded, in catalog order, cut to the first n by a positive limit n |
| IntakeLaws.WritesStayInBatch | backend/app/catalog/automated_image_pipeline.py:564-577 | every write of a run is for a product of its batch |
| Pipeline.AutomatedImagePipeline.ProcessOne | backend/app/catalog/automated_image_pipeline.py:606-646 | one product's writes, counters and result, and whether an exception escapes |
| Pipeline.AutomatedImagePipeline.FindIcecatImages | backend/app/catalog/automated_image_pipeline.py:648-682 | the match and its counter: by GTIN exactly if the GTIN reply shows images, by brand and part number exactly if only the second reply does |
| IntakeLaws.FoundIff | backend/app/catalog/automated_image_pipeline.py:657-682 | GTIN first, in terms of the replies: whose images are considered, and when the answer is locked or raises |
| Pipeline.AutomatedImagePipeline.TryCandidates | backend/app/catalog/automated_image_pipeline.py:633-636 | the candidate loop stops where `Scan` stops and writes what it says |
| Pipeline.AutomatedImagePipeline.AttemptImage | backend/app/catalog/automated_image_pipeline.py:684-760 | one attempt's verdict and exact writes, an exception after the uploads included; a rejection leaves the rows alone |
| Pipeline.AutomatedImagePipeline.ReplacePrimary | backend/app/catalog/automated_image_pipeline.py:747-757 | demote, save and commit together, or an exception that leaves the committed rows |
| Pipeline.AutomatedImagePipeline.UploadVariants | backend/app/catalog/automated_image_pipeline.py:729-745 | the uploads up to the first refusal, with their counters |
| Pipeline.AutomatedImagePipeline.DemoteExistingPrimary | backend/app/catalog/automated_image_pipeline.py:375-386 | clears the primary flag of this product's rows and nothing else |
| Pipeline.AutomatedImagePipeline.SaveImageRecord | backend/app/catalog/automated_image_pipeline.py:389-428 | appends one approved primary row |
| Pipeline.AutomatedImagePipeline.TallyResult | backend/app/catalog/automated_image_pipeline.py:762-775 | the counter each final state bumps |
| Pipeline.AutomatedImagePipeline.RunOne | backend/app/catalog/automated_image_pipeline.py:564-578 | one turn of the loop: an exception becomes a RETRYABLE_FAILURE entry and stops nothing |
| ReportLaws.ReportConservation | backend/app/catalog/automated_image_pipeline.py:499-584 | first run, whatever raises: one result per product in order; approved + placeholders + rejected/2 + retryable = scanned; placeholders = misses + locks; matches between approved + rejected/2 and that plus retryable; card >= summary >= detail uploads = inserted rows + database failures, and each such failure is a retryable product |
| ReportLaws.CountersCount | backend/app/catalog/automated_image_pipeline.py:612-646 | each counter by itself: products per final state, twice for rejected ones, and uploads per variant |
| ReportLaws.MatchesAreCounted | backend/app/catalog/automated_image_pipeline.py:669-680 | the GTIN counter counts the products whose GTIN reply shows images, the other one those of which only the second reply does |
| ReportLaws.ResultsTell | backend/app/catalog/automated_image_pipeline.py:566-577 | each report entry has its product's id, final state and, unless an exception ended it, match method |
| ReportLaws.CoverageIsPercentage | backend/app/catalog/automated_image_pipeline.py:516-520 | coverage of a first run lies between 0 and 100 |
| ReportLaws.LaterCoverage | backend/app/catalog/automated_image_pipeline.py:554-562 | coverage is at most 100 in every further run of an instance if and only if its earlier runs approved nothing |
| ReportLaws.ExitCodeMeans | backend/app/catalog/automated_image_pipeline_cli.py:129-132 | the command exits 1 exactly when there were products and every one was rejected or raised |
| PipelineLease.WindowsDisjointIffNoTakeover | backend/app/catalog/automated_image_pipeline.py:439-477 | over every interleaving the holding windows are pairwise disjoint unless a live lease is overwritten by force, and (on a strictly increasing clock) if and only if none is |
| PipelineLease.OnlyLatestHolderReleases | backend/app/catalog/automated_image_pipeline.py:473-477 | in every reachable state a release removes the row exactly when it is the latest acquirer's |
| PipelineLease.AcquirableAfterExpiry | backend/app/catalog/automated_image_pipeline.py:447-470 | an unforced acquisition succeeds exactly when there is no row or it has expired, hence always one lease duration after the last operation |
| PipelineLease.LeaseTable.Acquire | backend/app/catalog/automated_image_pipeline.py:439-470 | verdict and new row of `_acquire_lease` |
| PipelineLease.LeaseTable.Release | backend/app/catalog/automated_image_pipeline.py:473-477 | new row of `_release_lease` |
| RateLimiter.FewerThanTwiceTheMaximum | backend/app/core/security.py:83-98 | for every key and every run, an interval shorter than the window admits at most twice the maximum less one |
| RateLimiter.NeverExceedsMaximumIff | backend/app/core/security.py:83-98 | no such interval ever admits more than the maximum if and only if the maximum is at most one |
| RateLimiter.BoundIsReached | backend/app/core/security.py:89-98 | for every limit above zero and window above one second some run reaches that bound within one second |
| RateLimiter.Limiter.AllowRequest | backend/app/core/security.py:89-98 | answer and new buckets of `allow` |
| RequestGate.Gate.SecurityAuditMiddleware | backend/app/main.py:168-286 | the ordered checks produce exactly `Handle`: response, verdict, audit log, buckets |
| RequestGate.Gate.IdempotencySeenSafely | backend/app/main.py:322-329 | true exactly when the store answers and holds a succeeded event for path and key |
| RequestGate.Gate.WriteAuditSafely | backend/app/main.py:289-295 | appends the event, or silently nothing when the store is down |
| RequestGate.CompletesIff | backend/app/main.py:182-286 | on every run a ruled mutation with a key completes exactly if it passes the limiter and the role check, its handler succeeds, and not both the store can be asked and it kept an earlier completion; with both it is the 409 duplicate |
| RequestGate.AtMostOnce | backend/app/main.py:217-227 | two successful handlers under one path and key, the later a mutation, mean that the store lost the first event or could not be asked by the second |
| RequestGate.CompletesTwiceIff | backend/app/main.py:289-329 | any permitted, succeeding mutation sent twice completes twice exactly if the store loses its event or cannot be asked |
| RequestGate.SeenIffCompleted | backend/app/main.py:182-286 | in every run a key is seen exactly when an earlier ruled request with this path and key reached its handler, was answered below 400, and had its event stored |
| RequestGate.FailureConsumesNothing | backend/app/main.py:184-284 | a request answered 400 or above, by a refusal, a failing or a raising handler, changes nothing that is seen, for any path and key |
| RequestGate.VerdictMeans | backend/app/main.py:179-286 | where every request of every run ends, in the order of the checks, with its status, and what the limiter counts |
| RequestGate.RuleForIsFirstFit | backend/app/core/security.py:129-134 | the rule is the first one with this method, in any case, whose prefix the path has |
| RequestGate.AuditIsComplete | backend/app/main.py:190-284 | on every run the gate's events are, in order, one per ruled request that ran its handler and one per 403, with path, key, result, status and trace, as far as the store accepted them, and no other |
| RequestGate.DuplicateMessageIff | backend/app/main.py:217-227 | the 409 message is true on a path if and only if the rule table does not cover both GET and another method there (or the limiter admits nothing) |
| RequestGate.ReadConsumesKey | backend/app/main.py:218-228 | on every path with both rules a successful GET consumes the key and the next mutation gets the 409 without running or being audited |
| RequestGate.EveryResponseIsTraced | backend/app/main.py:170-286 | every response carries the caller's trace id, or the generated one |
| BuilderMachine.VerdictIsFresh | frontend/machines/builderMachine.ts:181-242 | in every reachable state a valid or invalid verdict without error is a backend answer for exactly the current selection and preferences, with performance iff CPU and GPU are picked |
| BuilderMachine.ActorMatchesContext | frontend/machines/builderMachine.ts:181-259 | one actor at most, only in its own state, its input equal to the current context; `selecting_motherboard` is never entered |
| BuilderMachine.LastEventDecides | frontend/machines/builderMachine.ts:137-288 | on every run: generating exactly if the last accepted event is GENERATE_BUILD; validating exactly if it is SELECT_COMPONENT, APPLY_GENERATED_BUILD, RETRY, or SET_PREFERENCES while a verdict was shown |
| BuilderMachine.AcceptedLeadsTo | frontend/machines/builderMachine.ts:137-288 | the state that every accepted event leads to, out of every reachable state |
| BuilderMachine.HandlersOfState | frontend/machines/builderMachine.ts:137-288 | which events every state handles |
| BuilderMachine.AcceptedChanges | frontend/machines/builderMachine.ts:78-124 | what every accepted event does to the context |
| BuilderMachine.ValidationSettles | frontend/machines/builderMachine.ts:189-203 | validation ends with the backend's reply, on that invocation, to the current question: its verdict, or its error with the old validation kept |
| BuilderMachine.GenerationSettles | frontend/machines/builderMachine.ts:243-258 | generation ends with the builds for the current preferences, or the error |
| BuilderMachine.RetryAsksAgain | frontend/machines/builderMachine.ts:239-239 | RETRY asks the current question once more on a new invocation and shows that reply |
| BuilderMachine.ValidateAndMeasureMeans | frontend/lib/api.ts:841-849 | compatibility first, then performance for a selection with both a CPU and a GPU |
| BuilderMachine.ReplayAccepted | frontend/machines/builderMachine.ts:137-288 | replaying only the accepted events gives the same machine and drops none of them |
| BuilderMachine.SelectionIsFold | frontend/machines/builderMachine.ts:79-94 | the selection is the fold of the accepted SELECT, APPLY and RESET events |
| BuilderMachine.ResetIsFreshStart | frontend/machines/builderMachine.ts:115-136 | after RESET any further events behave as on a new machine facing the same backend from then on |
| BuilderMachine.ValidationAnswersLastQuestion | frontend/machines/builderMachine.ts:99-106 | in every reachable state the stored validation is the backend's answer to the question answered last since RESET, and a verdict without error is shown only while that is the current question |
| BuilderMachine.StaysCurrentIff | frontend/machines/builderMachine.ts:145-285 | out of every reachable state with a current validation, it stays current exactly if the event is dropped or leaves selection and preferences as they are and is no RESET |
| BuilderMachine.PreferencesCanOutdateValidation | frontend/machines/builderMachine.ts:260-275 | such a run exists: in `build_generated` preferences change, the old validation stays, and it is current only if they did not really change |
| ValidationEffect.NoStaleAnswerShown | frontend/components/ManualPartPicker.tsx:265-294 | for any order of changes and replies only the latest call is live, and with none live the panel shows the answer for the current input, or nothing because of an error or an empty selection |
| ValidationEffect.StaleReplyIsInvisible | frontend/components/ManualPartPicker.tsx:276-293 | a reply to a superseded call changes nothing that is shown |
| ValidationEffect.SpinnerStuckIff | frontend/components/ManualPartPicker.tsx:268-274 | a step breaks "spinning iff awaiting" exactly when it empties the selection while a reply is awaited |
| ValidationEffect.SpinsUntilCleared | frontend/components/ManualPartPicker.tsx:265-288 | until such a step, on every run from the first render on, the spinner turns exactly while a reply is awaited |
| CheapestProducts.CheapestListings | frontend/components/ManualPartPicker.tsx:1176-1199 | the loop over an insertion-ordered map computes `CheapestOf` |
| CheapestProducts.CheapestIsGroupBy | frontend/components/ManualPartPicker.tsx:1176-1199 | one entry per key in first-seen order, equal up to images to a member of its group, which holds exactly the listings with that key; no member's best price is lower, no earlier member's is equal, and it is the first member if none has a price; for groups without blank URLs it has an image iff some member has one, that member's own when it has one |
| CheapestProducts.BestSarPriceMeans | frontend/components/ManualPartPicker.tsx:1353-1377 | the least positive amount the listing asks in SAR, none exactly when it asks none |
| CheapestProducts.CheapestInStages | frontend/components/ManualPartPicker.tsx:1176-1199 | the function is idempotent, and cheapest(xs + ys) = cheapest(cheapest(xs) + ys), on all inputs |
| CheapestProducts.ImageCarriedIffClean | frontend/components/ManualPartPicker.tsx:1185-1195 | a listing that stays takes over every duplicate's image if and only if it is clean (it has an image or no blank URL); one that replaces a dearer listing if and only if it is clean or has no price |
| CheapestProducts.Cheapest | frontend/components/ManualPartPicker.tsx:1370-1376 | the least positive SAR amount, none exactly when there is no such offer |
| Pagination.DedupeProducts | frontend/components/ManualPartPicker.tsx:1201-1209 | the filter with its mutable set keeps the first item of every key |
| Pagination.RepeatIff | frontend/components/ManualPartPicker.tsx:1204-1206 | an item repeats another exactly if the first non-empty of id, canonical key and identity is the same |
| Pagination.PaginationIsComplete | frontend/components/ManualPartPicker.tsx:188-246 | after k fetches the list is the first min(24k, n) server items, and there is more exactly while k <= n div 24 |
| Pagination.OverlappingLoadsAreSafe | frontend/components/ManualPartPicker.tsx:222-260 | however loads overlap, fail or answer late, the list is a gap-free prefix without repeats and "no more" means complete, if no retry lands while a later page is outstanding |
| Pagination.CalmStepKeepsPrefix | frontend/components/ManualPartPicker.tsx:222-260 | the invariant behind it, step by step |
| Pagination.AppendPage | frontend/components/ManualPartPicker.tsx:233-236 | appending any page that starts inside the loaded prefix extends it exactly |
| Pagination.RetryKeepsPromiseIff | frontend/components/ManualPartPicker.tsx:233-260 | when a retry succeeds and an outstanding request is answered after it, the list is a gap-free prefix whose "no more" is true if and only if that request does not start beyond page one; one at the very end leaves page one as the whole list |
| Pagination.RetryCutsListShort | frontend/components/ManualPartPicker.tsx:233-260 | for every list of 48 items some run ends so, with half the list shown and nothing left to ask for |
| V1Mapping.MpnMatchIffUnique | frontend/lib/api.ts:250-276 | an MPN match is returned iff the product is not reviewed, has brand and part number, and exactly one list entry has its brand and, as part number, model or id, its number; it is that entry |
| V1Mapping.ReviewedWins | frontend/lib/api.ts:241-248 | a reviewed mapping is returned, with its id, exactly if there is one that is not blank |
| V1Mapping.MappingIgnoresOrder | frontend/lib/api.ts:237-277 | permuting the list changes nothing |
| V1Mapping.MapSelection | frontend/components/ManualPartPicker.tsx:95-116 | every selected kind is mapped or listed as unmapped, never both, and mapped to its own mapping |
| PricingGate.EveryIngestIsGated | backend/scripts/run_core500_pricing_expansion.py:125-157 | on every run, cut short or not, the k-th preview is of the k-th entry visited, and that entry is ingested, directly afterwards, exactly if execution is on, that very entry is approved, and the preview was accepted in SAR and the run's region |
| PricingGate.UrlEntriesMean | backend/scripts/run_core500_pricing_expansion.py:100-110 | the entries are exactly the plain URLs, unapproved, and the objects with a URL, with their own approval, in order and cut as the limit says, negative limits included; only a field that is no list raises |
| PricingGate.NormalizeMeans | backend/scripts/run_core500_pricing_expansion.py:104-109 | the same as membership |
| PricingGate.HealthyRunFinishes | backend/scripts/run_core500_pricing_expansion.py:122-165 | only a failing service call or a field that is no list cuts a run short |
| PricingGate.IngestedAtMostAccepted | backend/scripts/run_core500_pricing_expansion.py:141-155 | no more rows are ingested than previews accepted |
| PricingGate.TableAddsUpIff | backend/scripts/run_core500_pricing_expansion.py:159-164 | nothing is overwritten in the per-category table iff no batch with entries is followed by another of its category |
| PricingGate.PricingRunner.PreviewAndMaybeIngest | backend/scripts/run_core500_pricing_expansion.py:113-165 | the nested loops make exactly the specified calls; counters are read off the trace; accepted + rejected = all entries; the table agrees with the totals iff no category with entries repeats |
| PricingGate.PricingRunner.VisitEntries | backend/scripts/run_core500_pricing_expansion.py:125-164 | the inner loop: its calls, its row, accepted + rejected = entries, and the k-th item tells of the k-th entry's turn |
| PricingGate.PricingRunner.VisitEntry | backend/scripts/run_core500_pricing_expansion.py:126-157 | one entry: preview, verdict, ingest only behind the gate, and the item's URL, verdict, approval and status |
| BuyerNotes.CalmIsIdempotent | frontend/lib/uiText.ts:35-59 | calming a calmed note changes nothing, for every UTF-16 string, and the result has 1 to 150 units |
| BuyerNotes.CalmBuyerNoteMeans | frontend/lib/uiText.ts:35-59 | the whole function on the note's words: which pattern picks which message, and otherwise the words themselves, cut beyond 150 units |
| BuyerNotes.TidyingKeepsWords | frontend/lib/uiText.ts:36-36 | collapsing and trimming keep exactly the words, single blanks between |
| BuyerNotes.SaysMeans | frontend/lib/uiText.ts:38-54 | a pattern is said exactly if the text spells it somewhere, in any case of its letters |
| BuyerNotes.MessageIsCalm | frontend/lib/uiText.ts:39-56 | no canned message triggers any rule |
| BuyerNotes.CutIsCalm | frontend/lib/uiText.ts:57-57 | cutting and adding an ellipsis triggers no rule and stays within 150 units |
| BuyerNotes.SummaryShowsCalmedNotes | frontend/lib/uiText.ts:15-33 | visible + details is the order-preserving set of calmed notes, split at `maxVisible` |
| BuyerNotes.SummaryIsStable | frontend/lib/uiText.ts:15-33 | summarising the notes of a summary gives it back |
| BuyerNotes.DistinctFacts | frontend/lib/uiText.ts:17-23 | the set keeps the same notes without repeats |
| Migrations.UpgradesAreIdempotent | backend/alembic/versions/0002_catalog_import_staging.py:11-48 | each of the three upgrades can be repeated without further change |
| Migrations.UpgradeReachesTarget | backend/alembic/versions/0004_automated_image_pipeline.py:23-49 | from any subset already present the same tables and columns exist, what was missing has its declared definition, nothing present is redefined, other tables are untouched |
| Migrations.AddedColumns | backend/alembic/versions/0004_automated_image_pipeline.py:27-39 | a schema with none of the additions gets exactly these columns with these types, nullability and defaults |
| Migrations.IndexesAreGuaranteedIff | backend/alembic/versions/0003_product_image_reviews.py:11-34 | the indexes exist afterwards iff the table was absent or had them |
| Migrations.RoundTripIff | backend/alembic/versions/0002_catalog_import_staging.py:51-63 | upgrading 0002 to 0004 and downgrading is the identity iff the schema had none of the added objects |
| Migrations.Database.AddMissingColumns | backend/alembic/versions/0004_automated_image_pipeline.py:37-39 | the guarded column loop adds exactly the missing columns |
| Migrations.Database.DropPresentColumns | backend/alembic/versions/0004_automated_image_pipeline.py:55-58 | the guarded drop loop removes exactly the listed ones |
| Migrations.Database.Run0002Upgrade | backend/alembic/versions/0002_catalog_import_staging.py:11-48 | new schema of the 0002 upgrade, its early return included |
| Migrations.Database.Run0002Downgrade | backend/alembic/versions/0002_catalog_import_staging.py:51-63 | new schema of the 0002 downgrade |
| Migrations.Database.Run0003Upgrade | backend/alembic/versions/0003_product_image_reviews.py:11-34 | new schema of the 0003 upgrade |
| Migrations.Database.Run0003Downgrade | backend/alembic/versions/0003_product_image_reviews.py:37-44 | new schema of the 0003 downgrade |
| Migrations.Database.Run0004Upgrade | backend/alembic/versions/0004_automated_image_pipeline.py:23-49 | new schema of the 0004 upgrade |
| Migrations.Database.Run0004Downgrade | backend/alembic/versions/0004_automated_image_pipeline.py:52-61 | new schema of the 0004 downgrade |

## Left out

- RunLaws.DryRunOverApproximates: assumes no limit, because a limit can cut the two runs at different products.
- OwnershipLaws.PrimaryNeverLost: the database commits a demotion and its insertion together or neither; that a failed session refuses later work until someone rolls it back is not modelled.
- RerunLaws.IdempotentIffSettled: assumes that after a failed save the session serves the later products, as if someone had rolled it back, which `run()` does not do; only the condition on failing saves depends on it, and a session that refuses all further work is not modelled.
- RerunLaws.DefaultRerunsAreQuietIff: makes the same assumption, and assumes no limit, because a limited second run goes on to the next products.
- PipelineLease.WindowsDisjointIffNoTakeover: time is an integer; the timezone repair of naive timestamps is left out.
- ReportLaws.CoverageIsPercentage: coverage before its rounding to one decimal.
- BuyerNotes.CalmIsIdempotent: lower-casing is modelled as far as the ASCII patterns can tell, with the two non-ASCII characters whose lower case contains an ASCII letter.
- BuyerNotes.SummaryShowsCalmedNotes: the fixed summary and fallback sentences are left out.
- Two pipelines at once: `run()` never looks at the lease, so the ownership laws are for one runner at a time.
- HTTP, image decoding and re-encoding, hashing, cloud storage and Neo4j queries: parameters or state, as listed above.
- Names, reasons, Icecat ids, formats, sizes and dates of results and rows; the sleep between products.
- Audit actor, role, payload hash and metadata; API-key lookup and the role names (a role is its rank).
- `productIdentityKey`, brand and part-number normalisation: parameters, since only equality of their results matters.
- The reviewed mapping table, endpoint rules and canned category lists: parameters; `_selected_batches`: a filter and a sort by a fixed list.
- XState itself: the interpreter's run-to-completion step is taken as given.
- `loadMoreFilteredProducts` and `chooseProduct`: client-side filtering shortens pages, and picks are not cancelled, so neither promises completeness or freshness.
- Foreign keys and uniqueness constraints of created tables: a created table's column set is a parameter.
