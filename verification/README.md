# Verified model of the financial cache

The repository keeps a local cache of company financials: statement rows, model runs computed from them, snapshots,
ownership reports, provenance, hot responses. This project models the code that decides what may be reused, how
histories are chained, and how the queue worker runs jobs, and proves what that code promises. The main loops and the
objects they change are Dafny methods and classes proved against specification functions; the theorems are lemmas about
those functions. Short scans that only look something up or filter a list are functions. Tables are sequences or maps,
database statements are functions on them, and the broker, the clock and the formulas are parameters.

## Modules

- `Wrappers`, `Ordering`, `Grouping`, `Text`, `Rounding`: options and results; stable sorting and filtering; grouping
  into an insertion-ordered dictionary; strip, lower, split, join; half-even rounding.
- `Financials`, `ModelCache`, `ModelEngine`, `CacheTheorems`, `CacheLimits`, `Backfill`: the dataset a company's models
  are computed from, the model-run cache, `compute_models`, its guarantees over histories and where they stop, and the
  backfill script over the same table.
- `StatementGroups`, `CapitalStructure`, `CapitalStore`: grouping of statements, the roll-forward, and its persistence.
- `ChainKeys`, `ChainIdentity`, `AmendmentChains`, `ChainTheorems`: what a beneficial ownership report is known by, and
  the amendment chains of reports known by the same.
- `Provenance`, `SourceContracts`: the merge of source usages and the payload check that re-derives them.
- `SerialWorker`, `ConcurrentWorker`: the two queue worker loops, each driven by a script of broker answers.
- `QueryCanon`, `HotCacheKeys`, `QueryParsers`, `QueryMeaning`, `HandlerKeys`: the canonical company query, the hot-cache
  key and its text, the normalisers of as-of instants and price windows, what a request asks for, and the texts the
  route handlers store under.
- `Confidence`, `OutputNormalization`, `OutputMeaning`: the confidence of a model result, the standardised payload, and
  what it says about its inputs.
- `FreshnessMigration`: the migration of nine timestamp columns into the refresh-state table and back.
- `PoolTelemetry`, `Statistics`, `Observability`: running statistics, record buffers and their summaries.

## What the proofs found

- An answer from the cache is what recomputing would give if and only if the inputs the signature leaves out are those
  the stored run was computed under. They are the company classification for every model and, for residual income
  alone, the risk-free rate: its formula reads the rate (app/model_engine/models/residual_income.py:38-43) while
  app/model_engine/engine.py:399-414 signs it for other models only. A rate change alone makes residual income, and no
  other model, answer with a stale run.
- The capital-structure rows depend on the order in which the database returns statements exactly when some period end
  has two filing types; the loader (app/services/capital_structure_intelligence.py:45-52) asks for no order.
- Downgrading the freshness migration and upgrading again turns a check that never succeeded into a success, and moves
  `updated_at` forward when the last check was later; a row survives unchanged exactly when neither applies.
- An unsupported sector lowers no confidence score; only the cautious `partial` verdict does.
- The serial worker closes its service last of its exit steps (app/worker.py:238-243), and `except Exception` does not
  catch an interruption of the close itself (app/worker.py:259-265). A service is left open exactly when one was open on
  leaving the loop and those steps are cut short before the close or interrupted during it; an interrupted close at idle
  or after a failed job is attempted a second time on the way out. An empty claim in once mode leaves nothing open.
- A change of a company's classification alone leaves every model answering with its stale run, for some formula.
- The amendment chain key of a report with party CIKs identifies its base form and set of CIKs if and only if the key is
  shorter than 180 characters before it is cut (app/services/beneficial_ownership.py:158-161). From there on a report
  with one more party has the same key: seventeen filers and the same seventeen with an eighteenth share one chain.
- The hot-cache text the middleware asks for (app/middleware/company_cache.py:343-424) is often not the one the handler
  stores under. For overview it leaves the price window out: a request with a window asks for what the request without
  one stored, which ETag and 304 then follow (app/middleware/conditional_get.py:79-97), and what a request with a window
  stores is never asked for. For financials no stored text is ever asked for, because the stored ones end in a price
  part. For workspace-bootstrap the texts agree exactly when the request is plainly spelt: no `$` in the ticker, each
  flag text true for both sides or for neither, `compact` in lower case, and no section asked for twice.
- The help text of `--once` (app/worker.py:273) promises a single claim attempt; the loop keeps serving until a claim
  finds no job. The model follows the loop.

## Model

| member | source | states |
|---|---|---|
| Financials.BuildFinancials | app/model_engine/engine.py:305-329 | The dictionary loop yields the subsequence of rows that are the first of their (start, end, form), in order |
| Financials.DatasetSeries | app/model_engine/engine.py:264-340 | The series of a limited load has unique keys, newest period first, and each point is the newest row of its key in the whole table, even among rows cut off by the limit; every loaded row's key is present |
| Financials.LimitCutsTheOldest | app/model_engine/engine.py:264-274 | A limited load has min(limit, all) of the company's canonical rows, and every canonical row it cuts is no newer than each it keeps, by period end, then last update, then id |
| Financials.PreviousComparableStatement | app/model_engine/utils.py:84-94 | The scan returns the first earlier point of the same cadence, or none when there is none |
| Financials.PreviousComparableIsLatestEarlier | app/model_engine/utils.py:84-94 | On a company's series that first match is the same-cadence point with the greatest period end strictly before the current one, and none is returned exactly when no such point exists |
| ModelCache.LatestIsNewest | app/model_engine/engine.py:427-458 | The lookup returns a run if and only if it is the newest compatible run by (created_at, id); it returns none exactly when no run is compatible |
| ModelCache.LatestModelRuns | app/model_engine/engine.py:423-458 | For every definition, the batched lookup over the cross product of names and versions equals its own single lookup |
| ModelCache.FirstCandidateIsLatest | app/model_engine/engine.py:427-458 | The first compatible row in the batched query's order is the newest compatible run of that definition |
| ModelCache.RunVersionMeaning | app/model_engine/engine.py:467-475 | A run's calculation version is its column stripped, or when that is missing or blank, the one inside its result |
| ModelCache.VersionInAnyCase | app/model_engine/calculation_versions.py:14-15 | A registered model's calculation version is found whatever the case of its name |
| ModelCache.SnapshotIsNewestPrice | app/model_engine/engine.py:277-302 | The market snapshot shows the company's price row with no later trade date, then last update, then id, and is missing exactly in strict mode or without any price row |
| ModelCache.SignedAndHiddenAreWhatIsRead | app/model_engine/engine.py:358-414 | What is signed and what is left out together are exactly what a model's formula reads: the dataset, the rate for four models, the mode for dupont |
| ModelEngine.SelectionMeaning | app/model_engine/engine.py:236-247 | Selection succeeds exactly when every name, in any case, is registered, and otherwise reports the first that is not |
| ModelEngine.Engine.ComputeModels | app/model_engine/engine.py:45-167 | Reply and table after a call are those of the specification: errors and empty datasets change nothing, hits report the stored run, misses append |
| ModelEngine.Engine.ComputeDefinitions | app/model_engine/engine.py:86-155 | The loop, using runs found before it, appends exactly one fresh run per missed definition with consecutive ids and answers the definitions in order |
| ModelEngine.Session.Append | app/model_engine/engine.py:123-133 | Adding and flushing assigns the next id and appends one row |
| CacheTheorems.EveryAnswerIsCurrent | app/model_engine/engine.py:45-167 | Over every history of calls, for each company and model: if the inputs its signature leaves out are the same in every call that asks for it, every run id returned for it names exactly one stored run whose result equals recomputing on that call's data; all other tables, settings, models, companies and flags may change |
| CacheTheorems.FixedClassificationSuffices | app/model_engine/engine.py:358-414 | For every model but residual income a fixed classification of the company is enough, however the risk-free rate, statements, prices, settings and flags change |
| CacheTheorems.ResidualIncomeNeedsTheRateToo | app/model_engine/engine.py:399-414 | For residual income a fixed classification and a fixed risk-free rate, in the calls that ask for it, are enough |
| CacheTheorems.CurrentFromAnEmptyTable | app/model_engine/engine.py:45-167 | From an empty table nothing need be assumed of what is stored: a fixed classification, and for residual income a fixed rate, make every answer current |
| CacheTheorems.ComputeKeepsSound | app/model_engine/engine.py:358-384 | The store invariant of one company's model, that each stored signature is answered by the formula on what it signs, is kept by every call that sees the same unsigned inputs or does not ask for that model |
| CacheTheorems.HistoryKeepsSound | app/model_engine/engine.py:45-167 | That invariant holds after any history, whatever the calls for other models and companies see |
| CacheTheorems.HistoryKeepsStore | app/model_engine/engine.py:45-167 | Unique ids and append-only growth hold after any history |
| CacheTheorems.ComputeKeepsStore | app/model_engine/engine.py:45-167 | A call keeps ids unique and below the next id, and only appends |
| CacheTheorems.RepeatAppendsNothing | app/model_engine/engine.py:86-119 | An unforced repetition of a call on unchanged inputs, on a store no later than the clock, appends nothing and answers every model from the cache |
| CacheTheorems.RepeatReturnsSameIds | app/model_engine/engine.py:86-119 | With distinct models the repetition returns the same run ids |
| CacheLimits.AnswersForgetFormula | app/model_engine/engine.py:45-167 | Which runs are reused, computed and returned along a history does not depend on what the formulas compute |
| CacheLimits.HitIsRightExactlyWhenHiddenUnchanged | app/model_engine/engine.py:358-414 | When a call answers from the cache with a run that an earlier call of the history computed, with any calls and models in between, the answer is what recomputing gives, for every formula, if and only if the unsigned inputs of the two calls agree |
| CacheLimits.RateChangeIsMissedOnlyByResidualIncome | app/model_engine/engine.py:399-414 | After a call that computed a model, the same request at another risk-free rate gets a stale answer for some formula if and only if the model is residual income |
| CacheLimits.StaleResidualIncome | app/model_engine/engine.py:399-414 | A concrete pair of calls, at 4 and then 5 percent, where the second is answered with the first one's residual income |
| CacheLimits.ClassificationChangeIsMissedByEveryModel | app/model_engine/engine.py:358-384 | After a call that computed a model, whichever it is, the same request with only the company's classification changed gets a stale answer for some formula |
| CacheLimits.StaleClassification | app/model_engine/output_normalization.py:288-301 | A concrete pair of calls, before and after a company is reclassified, where the second is answered with the first one's run |
| CacheTheorems.RegistryVersionsAgree | app/model_engine/calculation_versions.py:7-22 | The table of calculation versions and the registered definitions agree, and no version is blank |
| Backfill.RunPass | scripts/backfill_model_cache.py:131-211 | The work loop leaves the table, statuses and exit code of the specification; every decision reads the rows loaded before the loop, and the exit code is 1 exactly when an item failed |
| Backfill.DecideMeaning | scripts/backfill_model_cache.py:131-211 | An item is skipped as current exactly when a loaded row of it is current, refreshed exactly when none is current or ahead, and otherwise skipped as newer with the version of a row that is ahead |
| Backfill.AheadExactlyWhenSuperseding | scripts/backfill_model_cache.py:375-395 | One version is ahead of another if and only if both are the same base with a number and its number is greater digit by digit; unlike bases and unnumbered texts are never ahead |
| Backfill.RefreshReasonMeaning | scripts/backfill_model_cache.py:412-423 | A refresh names what is wrong with the item's newest row by (created_at, id): there is none, it has no version, or an outdated one |
| Backfill.FirstRevisionIsOutdated | scripts/backfill_model_cache.py:131-211 | A company whose one dcf row carries the first revision is refreshed as outdated |
| Backfill.ThirdRevisionIsNewer | scripts/backfill_model_cache.py:131-211 | A company whose one dcf row carries a third revision is skipped as newer |
| Backfill.OneModelCall | app/model_engine/engine.py:45-167 | One engine call for one model does nothing, answers from a current row, or appends one current row of that item |
| Backfill.ProcessEffect | scripts/backfill_model_cache.py:131-211 | One item appends a current row exactly when it reports a recomputation, and is attempted exactly when the loaded rows call for a refresh |
| Backfill.PassInvariant | scripts/backfill_model_cache.py:131-211 | Along a pass, rows beyond the loaded ones are current rows of items already recomputed and of no others |
| Backfill.RecheckIsNeverCurrent | scripts/backfill_model_cache.py:131-211 | Script and engine agree: once the script reaches recomputation the engine never answers from the cache |
| Backfill.SecondPassRetriesExactlyTheUnfinished | scripts/backfill_model_cache.py:131-211 | A second pass over the same scope, over any data, attempts exactly the items that failed or got no result |
| Backfill.BuildWorkItems | scripts/backfill_model_cache.py:324-331 | The nested loops with early stop yield the first items of the company-by-model product |
| Backfill.LimitPushdown | scripts/backfill_model_cache.py:294-302 | Loading only the first ceil(limit / models) companies leaves the limited work list unchanged |
| Grouping.GroupBy | app/services/capital_structure_intelligence.py:385-393 | The dictionary holds, for each key in order of first appearance, the records of that key in input order |
| StatementGroups.NormalizeFinancialRows | app/services/capital_structure_intelligence.py:385-413 | The rows are the groups' summaries in stable period order |
| StatementGroups.GroupStatements | app/services/capital_structure_intelligence.py:385-393 | The statements are grouped by (period_end, filing_type) in insertion order |
| StatementGroups.RowsAreOrderedSummaries | app/services/capital_structure_intelligence.py:385-413 | Rows come in period order with distinct (period_end, filing_type), each listing exactly its group's ids and showing its newest statement by (last_updated, id) |
| StatementGroups.EachStatementInOneRow | app/services/capital_structure_intelligence.py:385-413 | Every statement id is in exactly one row, the row of its own key |
| StatementGroups.RowSummarises | app/services/capital_structure_intelligence.py:394-411 | A row shows its group's newest statement, lists its ids, and is marked restated exactly when two of its statements print differently |
| StatementGroups.AccessionMeaning | app/services/capital_structure_intelligence.py:468-475 | A row's accession number is the first segment of its source with twenty characters and two dashes, and none when there is none |
| StatementGroups.RowsForgetOrder | app/services/capital_structure_intelligence.py:385-413 | With one filing type per period end the rows do not depend on the order of the statements |
| StatementGroups.OrderIndependentExactlyWhenOneForm | app/services/capital_structure_intelligence.py:45-52 | The rows are the same for every order of the statements if and only if no period end has two filing types |
| CapitalStructure.BuildSnapshots | app/services/capital_structure_intelligence.py:126-382 | The loop carrying the previous row yields one snapshot per row, each from its row and the row before it |
| CapitalStructure.OpensWithPreviousEnding | app/services/capital_structure_intelligence.py:132-205 | Each snapshot opens with the previous one's ending debt and ending shares |
| CapitalStructure.DebtBridgeBalances | app/services/capital_structure_intelligence.py:152-160 | Opening + issued - repaid + unexplained = ending debt, and the bridge is defined exactly when none of its four inputs is missing |
| CapitalStructure.ShareBridgeBalances | app/services/capital_structure_intelligence.py:205-221 | Opening + effective issued - repurchased + other = ending shares, and the bridge is defined exactly when both counts are known and issued shares are reported or can be inferred |
| CapitalStructure.DebtMovesAsReported | app/services/capital_structure_intelligence.py:136-160 | From the statements' numbers: the unexplained change is the rise in current and long-term debt less (issuance minus repayment, in size), so nothing exactly when they agree; the net change is the reported one, else that difference; issued and repaid are the sizes reported |
| CapitalStructure.SharesMoveAsReported | app/services/capital_structure_intelligence.py:200-222 | From the statements' numbers: the other change is the rise in shares less those issued (or the excess of the diluted average) plus those bought back; net change and ratio are those of the rise |
| CapitalStructure.BridgesAreChained | app/services/capital_structure_intelligence.py:126-382 | For any series both bridges balance and each leg opens where the last one ended |
| CapitalStructure.Telescopes | app/services/capital_structure_intelligence.py:126-382 | Over any contiguous defined stretch of a chained series the last ending is the first opening plus the sum of the movements |
| CapitalStructure.DebtTelescopes | app/services/capital_structure_intelligence.py:152-160 | Debt telescopes over every contiguous stretch with a defined bridge |
| CapitalStructure.SharesTelescope | app/services/capital_structure_intelligence.py:205-221 | Shares telescope over every contiguous stretch with a defined bridge |
| CapitalStructure.DebtFlagsAreExact | app/services/capital_structure_intelligence.py:162-171 | The section has no flag, and full confidence, exactly when its bridge is defined |
| CapitalStructure.NoFlagsMeansNothingMissing | app/services/capital_structure_intelligence.py:434-440 | A section carries no missing flag exactly when no value is missing |
| CapitalStructure.SectionsFlagTheirGaps | app/services/capital_structure_intelligence.py:162-238 | The four sections with missing-value flags carry one flag when all their values are missing, none when all are known, and else a partial flag and one per gap under its own name |
| CapitalStructure.ConfidenceIsShareKnown | app/services/capital_structure_intelligence.py:234-281 | A section's confidence is the share of its values that are known |
| CapitalStructure.ConfidenceIsAFraction | app/services/capital_structure_intelligence.py:283-290 | Every snapshot has an overall confidence between 0 and 1 |
| CapitalStructure.OverallIsMean | app/services/capital_structure_intelligence.py:283-290 | Overall confidence is the mean of the six sections' |
| CapitalStructure.SummaryGathers | app/services/capital_structure_intelligence.py:301-312 | The summary shows the sections' figures and the amounts due within a year |
| CapitalStructure.FlagsGather | app/services/capital_structure_intelligence.py:126-382 | The quality flags are those of all six sections and that of a restatement |
| CapitalStructure.SectionsAreDated | app/services/capital_structure_intelligence.py:234-281 | Every section is dated by the row's period end and last check |
| CapitalStructure.LadderMeaning | app/services/capital_structure_intelligence.py:416-431 | A ladder shows every reported bucket with its absolute amount, and is unflagged and fully confident exactly when no bucket is missing |
| CapitalStructure.InterestRatiosInvert | app/services/capital_structure_intelligence.py:173-178 | Each of the four ratios times its denominator gives its numerator back, over the reported numbers, and is defined exactly when both are known and the denominator is not zero |
| CapitalStructure.AverageDebtMeaning | app/services/capital_structure_intelligence.py:174-174 | Average debt is the mean of the roll-forward's own opening and ending debt, and the ending debt of a first row |
| CapitalStructure.PayoutMixAddsUp | app/services/capital_structure_intelligence.py:345-349 | The payout shares of dividends and repurchases add up to one whenever both are reported and not both zero |
| CapitalStructure.PayoutsAsReported | app/services/capital_structure_intelligence.py:187-192 | Gross and net payout and the three shares of the mix, from the reported dividends, buybacks and stock-based compensation |
| CapitalStore.SnapshotTable.Recompute | app/services/capital_structure_intelligence.py:38-123 | Deleting the company's rows and upserting the new ones leaves the specified table and reports their number |
| CapitalStore.SnapshotTable.UpsertAll | app/services/capital_structure_intelligence.py:74-113 | The upserts, one by one, write each snapshot under its key |
| CapitalStore.SnapshotsHaveDistinctKeys | app/services/capital_structure_intelligence.py:38-123 | The snapshots of one company never meet each other's unique key |
| CapitalStore.RecomputeMeaning | app/services/capital_structure_intelligence.py:38-123 | Afterwards the table holds exactly the company's snapshots, stamped, and every other company's rows unchanged |
| CapitalStore.RecomputeIsIdempotent | app/services/capital_structure_intelligence.py:38-123 | Recomputing again only moves the timestamps |
| ChainKeys.KeyIgnoresPartyOrder | app/services/beneficial_ownership.py:134-171 | The chain key depends on the set of parties, not on their order or repetition |
| ChainKeys.SameFullKeyExactlyWhenSameCiks | app/services/beneficial_ownership.py:134-149 | Before cutting, two reports, one of them with party CIKs, have the same key if and only if base form and set of CIKs agree |
| ChainKeys.SameKeyExactlyWhenSameCiks | app/services/beneficial_ownership.py:134-161 | Two reports, one of them with party CIKs, share a key if and only if base form and set of CIKs agree, when either key is shorter than 180 characters or both are exactly that long |
| ChainKeys.KeyIdentifiesExactlyWhenShort | app/services/beneficial_ownership.py:134-161 | For a report with party CIKs: every report with its key has its base form and set of CIKs if and only if its key is shorter than 180 characters before cutting |
| ChainKeys.FullKeysForgetLaterParties | app/services/beneficial_ownership.py:158-161 | Once the key has reached 180 characters, a further party, last in the order, no longer changes it |
| ChainKeys.SeventeenAndEighteenFilersCollide | app/services/beneficial_ownership.py:158-161 | A concrete pair of reports, one with a further filer, that share a key |
| ChainIdentity.SameFullKeyExactlyWhenSameIdentity | app/services/beneficial_ownership.py:134-181 | Uncut keys agree if and only if base form and identity do: the set of CIKs, or without any the set of names as words in lower case, or the words of the document's name, or the digits of the accession number |
| ChainIdentity.SameKeyExactlyWhenSameIdentity | app/services/beneficial_ownership.py:134-161 | The keys used agree exactly then while both are within 180 characters |
| ChainIdentity.NameIsWording | app/services/beneficial_ownership.py:152-155 | A normalised name is its words in lower case, separated by single blanks |
| ChainIdentity.TokenMeaning | app/services/beneficial_ownership.py:164-171 | A document token is the runs of letters and digits of the lower-case stem joined by dashes, cut to 96, and none below four characters |
| ChainIdentity.StemMeaning | app/services/beneficial_ownership.py:164-171 | The stem is the name up to its last dot, when that comes after the last slash and some other character, and else the whole name |
| AmendmentChains.AssignAmendmentChainHistory | app/services/beneficial_ownership.py:118-131 | Every report object ends up carrying its key, sequence, chain size and previous accession number |
| AmendmentChains.GatherChains | app/services/beneficial_ownership.py:118-123 | The first loop stores each report's key and gathers the chains in insertion order |
| AmendmentChains.LinkChain | app/services/beneficial_ownership.py:125-131 | The inner loop numbers and links one sorted chain in place |
| AmendmentChains.ChainFacts | app/services/beneficial_ownership.py:125-127 | A chain is sorted by (date, accession), without repeats, and holds exactly the reports of its key |
| AmendmentChains.LinkIsUnique | app/services/beneficial_ownership.py:118-131 | A report has at most one link |
| ChainTheorems.ExactlyOnePlace | app/services/beneficial_ownership.py:118-131 | Every report is at exactly one position of exactly one chain, and its sequence says which |
| ChainTheorems.SequencesAreOneToSize | app/services/beneficial_ownership.py:118-131 | The sequence numbers of a chain are exactly 1 to its size, each carried by exactly one report |
| ChainTheorems.PreviousIsOneEarlier | app/services/beneficial_ownership.py:118-131 | With distinct accession numbers, the previous accession number names the report one earlier in the same chain, and is absent exactly for the first |
| ChainTheorems.SequenceFollowsFiling | app/services/beneficial_ownership.py:125-131 | Within a chain an earlier sequence means a filing date, or else report date, no later, accession numbers deciding on one day; with distinct accession numbers the converse holds too |
| ChainTheorems.LinksLeadToTheFirst | app/services/beneficial_ownership.py:118-131 | Following previous accession numbers goes back one at a time, reaches the first filing in exactly sequence - 1 steps and ends there |
| ChainTheorems.LinksForgetOrder | app/services/beneficial_ownership.py:118-131 | A report's link does not depend on the order in which the filings were listed |
| ChainTheorems.ChainForgetsOrder | app/services/beneficial_ownership.py:125-127 | A chain, apart from input positions, does not depend on the input order |
| ChainTheorems.OutputShowsChainsNewestFirst | app/services/beneficial_ownership.py:100-101 | In the final output each chain appears in strictly decreasing sequence |
| ChainTheorems.OutputIsNewestFirst | app/services/beneficial_ownership.py:100-102 | The final output lists filings from the latest date to the earliest, accession numbers deciding on one day |
| ChainTheorems.Collect | app/services/beneficial_ownership.py:56-102 | The collector links all reports and lists each exactly once, by filing date from the latest to the earliest |
| Provenance.BuildProvenanceEntries | app/source_registry.py:490-535 | The loop updating the dictionary in place gives the fold of the usages, sorted by role and label |
| Provenance.EntriesMeaning | app/source_registry.py:490-535 | The entries are sorted by (role, label), name exactly the known sources used, without repeats, and carry the strongest role and the latest refresh time of their usages |
| Provenance.EntryAsOfIsNewest | app/source_registry.py:662-686 | When all as-of texts parse, an entry's text is one of its usages' at the greatest instant |
| Provenance.NewerAsOfIsLater | app/source_registry.py:662-673 | Of two texts that parse, the newer one is one of them at the later instant, and at one instant the later listed |
| Provenance.UnparsedCompareAsTexts | app/source_registry.py:662-673 | When one of two texts does not parse, the greater text is taken |
| Provenance.EntriesByRoleThenLabel | app/source_registry.py:529-535 | Primary sources are listed first, then supplemental, derived and fallback ones, and within a role by label |
| Provenance.EntriesForgetOrder | app/source_registry.py:490-535 | Ids, tiers, roles and refresh times do not depend on the order of the usages |
| Provenance.EntriesAreDistinct | app/source_registry.py:490-535 | No entry is listed twice |
| SourceContracts.ValidateAllowedSources | app/api/source_contracts.py:61-83 | A contract is accepted exactly when its ids are distinct and known and fallback sources appear only where permitted; repeats are reported first, then the unknown ids in order, then the fallback ids in order |
| SourceContracts.ExtractState | app/api/source_contracts.py:351-387 | The loops growing two sets re-derive exactly the sources and fallbacks the payload names |
| SourceContracts.ScanRows | app/api/source_contracts.py:351-387 | Scanning the provenance rows collects exactly the ids they name and those with a fallback tier |
| SourceContracts.RowsByField | app/api/source_contracts.py:351-387 | A row names its stripped source id when that is not blank, and is fallback by its stripped tier |
| SourceContracts.ValidatePayload | app/api/source_contracts.py:276-308 | Over every payload: sources outside the contract are reported first, exactly those; then exactly the fallback sources shown, when the contract does not permit them or drops them in strict mode; everything else passes |
| SourceContracts.StateOfBuiltPayload | app/api/source_contracts.py:351-387 | From a built payload the check re-derives exactly the known sources used, and those with a fallback tier |
| SourceContracts.BuiltPayloadPassesExactlyWhen | app/api/source_contracts.py:276-308 | For an accepted contract and allowed usages, the built payload passes if and only if it is not the case that the payload is strict, the contract drops commercial fallbacks, and a used source has a fallback tier |
| SourceContracts.MixOfUsages | app/source_registry.py:538-559 | The mix names exactly the known sources used, those used as primary at least once and those with a fallback tier, and says official only exactly when something known was used and none of it is fallback |
| SourceContracts.OfficialOnlyAlwaysPasses | app/source_registry.py:538-559 | A payload whose mix says official only passes every accepted contract that allows its sources |
| SerialWorker.Worker.Run | app/worker.py:180-243 | Over any script the loop ends at the first turn that raises or finds no job in once mode; claimed jobs run once each in order; a service is left open exactly when one was open on leaving and the exit steps are cut short before closing it or interrupted while closing it |
| SerialWorker.LeaveServiceOpen | app/worker.py:238-243 | A concrete run that leaves a service open: an interrupted job, then an interrupted join of the heartbeat thread |
| SerialWorker.Worker.TakeTurn | app/worker.py:180-237 | One iteration raises exactly for recovery, a claim, a failed creation, or an interrupted job or close; it says which jobs ran, whether a service is open afterwards and when recovery is next due |
| SerialWorker.Worker.Serve | app/worker.py:199-237 | A job runs on the open service, created if missing; a failed job closes it, and an interruption of the job or of that close leaves closing to the exit |
| SerialWorker.Worker.CloseService | app/worker.py:259-265 | Closing attempts the open service once and forgets it unless interrupted, and does nothing when none is open |
| SerialWorker.Worker.Recover | app/worker.py:181-184 | Recovery runs exactly when due, and the next one is due an interval later |
| SerialWorker.EachServiceClosedOnce | app/worker.py:180-243 | In every rule-abiding log each service is created once and gets exactly one uninterrupted close attempt unless it is the one still open |
| SerialWorker.AllClosedOnExit | app/worker.py:238-243 | Once no service is open, every service ever created has had exactly one uninterrupted close attempt |
| SerialWorker.JobsRunOnOpenServices | app/worker.py:199-226 | A job only ever runs on a service created and not yet closed |
| SerialWorker.RecoveriesAreApart | app/worker.py:181-184 | Any two recoveries are at least the interval apart |
| ConcurrentWorker.Worker.Run | app/worker.py:131-178 | Over any script the run ends at the first round that raises or, in once mode, leaves nothing active, unless the answers run out; earlier rounds of once mode leave jobs active, and on return exactly the submitted futures have finished |
| ConcurrentWorker.Worker.TakeRound | app/worker.py:137-177 | A round whose claims come to their end returns exactly in once mode with nothing active, every future reported finished having been popped; it raises only for a recovery that is due or a broker that raises |
| ConcurrentWorker.Worker.Fill | app/worker.py:143-153 | Claims stop at the budget or an empty answer; with nothing active the last step was a blocking claim |
| ConcurrentWorker.Worker.PopDone | app/worker.py:165-174 | Exactly the finished futures move from active to finished |
| ConcurrentWorker.Worker.Submit | app/worker.py:150-153 | A claimed job is submitted once, within the budget |
| ConcurrentWorker.Worker.Recover | app/worker.py:138-141 | Recovery runs exactly when due, at least the interval after the last one |
| ConcurrentWorker.ActiveAndFinishedPartition | app/worker.py:137-177 | At every loop head the submitted jobs are the disjoint union of active and finished ones, and the budget holds |
| ConcurrentWorker.SubmittedOnce | app/worker.py:150-153 | Each future is submitted exactly once |
| ConcurrentWorker.PoppedAtMostOnce | app/worker.py:165-174 | Each future is popped at most once, exactly when it has finished |
| ConcurrentWorker.SafeAtEveryMoment | app/worker.py:137-177 | At every moment the active jobs are within the budget, and a blocking claim happens only when every submitted job has been popped |
| QueryCanon.Canonicalize | app/middleware/company_cache.py:65-180 | The canonicaliser accepts exactly the valid queries and returns their sorted normal form |
| QueryCanon.ReadSingletons | app/middleware/company_cache.py:65-180 | Reading succeeds exactly when no singleton parameter is repeated |
| QueryCanon.Rewrite | app/middleware/company_cache.py:65-180 | The step-by-step rewriting of the dictionary ends in the normal value of every parameter, and fails exactly for invalid requests |
| QueryCanon.RewriteBootstrap | app/middleware/company_cache.py:65-180 | The bootstrap steps give every flag, price, section and compact parameter its normal value |
| QueryCanon.CanonicalIsIdempotent | app/middleware/company_cache.py:65-180 | The canonical query of a canonical query is itself |
| QueryCanon.CanonicalForgetsOrder | app/middleware/company_cache.py:65-180 | Permuting the parameters does not change the canonical query |
| QueryCanon.CanonicalReadsBack | app/middleware/company_cache.py:65-180 | Reading a canonical query gives the normalised parameters back |
| QueryCanon.SameCanonicalSameKey | app/middleware/company_cache.py:362-424 | Two valid requests with the same route, ticker and canonical query get the same hot-cache key |
| HotCacheKeys.SameTextExactlyWhenSameControls | app/middleware/company_cache.py:343-424 | Two valid requests for the same route and ticker ask for the same hot-cache key text if and only if their normalised controls agree; parameters that pass through, such as an overview's price window, are not in the text |
| QueryCanon.SameCanonicalExactlyWhen | app/middleware/company_cache.py:65-180 | Two valid requests have the same canonical query if and only if their normalised controls agree and they pass the same parameters through, as multisets |
| QueryCanon.SameKeySameCanonicalExactlyWhen | app/middleware/company_cache.py:343-424 | Two valid requests that share a hot-cache key have the same canonical query if and only if they pass the same parameters through |
| QueryMeaning.SameTextExactlyWhenSameWish | app/middleware/company_cache.py:343-424 | Two valid requests ask for the same key text if and only if they ask for the same instant, view, flags, price window, sections and compactness |
| QueryMeaning.SameCanonicalExactlyWhenSameWish | app/middleware/company_cache.py:65-180 | They have the same canonical query if and only if, besides, they pass the same parameters through |
| QueryMeaning.InstantDecides | app/api/validation.py:84-95 | Requests alike in all but the as-of parameter share canonical query and key text exactly when their instants agree |
| QueryMeaning.AsOfNamesInstant | app/api/validation.py:8-16 | As-of texts agree exactly when the instants they name do |
| QueryMeaning.ValidExactlyWhen | app/middleware/company_cache.py:65-180 | A request is valid exactly when its instant can be read, its view is one of three, and its price parameters can be read and make sense together |
| QueryMeaning.ViewOfRequest | app/middleware/company_cache.py:66-76 | The view is read under the route's own name for it |
| QueryMeaning.InstantOfRequest | app/middleware/company_cache.py:66-99 | The as-of instant is read under the same name on every route |
| QueryMeaning.CanonicalIsSorted | app/middleware/company_cache.py:163-180 | A canonical query is in ascending order of names, and of values under one name |
| QueryMeaning.WindowOfRequest | app/api/handlers/_shared.py:6761-6801 | A request that spells out all four price parameters is read as the window it spells |
| HandlerKeys.OverviewAsksForStoredExactlyWhen | app/api/handlers/company_overview.py:40-59 | The middleware asks for the text the overview handler stores that request under if and only if the price window is empty and the ticker has no dollar sign |
| HandlerKeys.OverviewAsksForOthersExactlyWhen | app/api/handlers/company_overview.py:599-606 | What one overview request asks for is what another stored if and only if their normalised controls agree and the stored one had no price window, whatever window is asked with |
| HandlerKeys.OverviewConfusesWindows | app/middleware/company_cache.py:368-381 | A concrete pair: an overview asked with the five latest prices asks for what the overview without a window stored, although texts stored and canonical queries differ |
| HandlerKeys.FinancialsNeverAsksForStored | app/api/handlers/financials.py:80-98 | What the middleware asks for on the financials route is never the text any financials response is stored under |
| HandlerKeys.BootstrapAsksForStoredExactlyWhen | app/api/handlers/company_overview.py:120-166 | The middleware asks for the text a bootstrap response is stored under if and only if the ticker has no dollar sign, each flag text is true for both sides or neither, a true compact is spelt in lower case, and no known section is repeated |
| HandlerKeys.SameWindow | app/api/handlers/_shared.py:6761-6801 | Where the middleware and the handler both accept a bootstrap request's price parameters they resolve the same window |
| HotCacheKeys.KeyTextIsInjective | app/api/handlers/company_overview.py:1013-1037 | For one route and ticker a key text determines every part of the key, although an as-of instant contains the separator |
| QueryParsers.SourceNormalizersAreValid | app/api/validation.py:8-58 | The as-of and price normalisers, each a parser followed by a printer, are idempotent and give different tokens to different price windows, whenever parsing undoes printing |
| QueryParsers.TokenNamesWindow | app/api/handlers/_shared.py:6804-6818 | A price token determines the price values |
| QueryCanon.NormalizedHasSameKey | app/middleware/company_cache.py:362-424 | Normalising the parameters does not change the hot-cache key |
| QueryCanon.SectionsSurvive | app/middleware/company_cache.py:316-340 | The sections written into a query read back as the same sections under the same flags |
| Confidence.ConfidenceProfile | app/model_engine/output_normalization.py:574-615 | The stepwise deductions give the base less the penalties, never below zero, and the deduplicated reasons |
| OutputMeaning.LabelMeaning | app/model_engine/output_normalization.py:618-628 | The labels begin at 0.85, 0.65 and 0.35 |
| Confidence.ConfidenceIsAntitone | app/model_engine/output_normalization.py:574-628 | For a fixed status, more missing fields, proxies, stale inputs or sector caution never raise the score or its label |
| Confidence.HighExactlyWhen | app/model_engine/output_normalization.py:618-628 | High confidence is exactly a supported status with at most one missing field and nothing else against it |
| Confidence.WholeScoreExactlyWhen | app/model_engine/output_normalization.py:574-651 | A result keeps its status's whole score exactly when it raises no flag but its status's own and the one for an unsupported sector, or had nothing to lose |
| Confidence.Dedupe | app/model_engine/output_normalization.py:698-707 | The loop with its seen set keeps stripped, non-empty first occurrences in order |
| Confidence.DedupedFacts | app/model_engine/output_normalization.py:698-707 | The result has no repeats and holds exactly the non-empty stripped texts |
| Confidence.DedupedTwice | app/model_engine/output_normalization.py:698-707 | Deduplicating again changes nothing |
| Confidence.HeadlineIsCoreReason | app/model_engine/output_normalization.py:589-628 | Whatever else is said against a result, the reasons, and so the summary headline, begin with the status's own |
| OutputNormalization.Standardize | app/model_engine/output_normalization.py:161-211 | The writes, one after the other, give the specified payload, formula ids last |
| OutputMeaning.ScoreWritten | app/model_engine/output_normalization.py:574-615 | The score written is 0.90, 0.65, 0.50, 0.20 or 0 by status, less 0.05 for one missing field or 0.15 for more, and 0.10 each for a proxy, a stale input and a cautious sector, never negative |
| OutputMeaning.ResultSays | app/model_engine/output_normalization.py:198-211 | Status, reasons, fields, proxies, stale inputs, suitability, warnings and flags are each written under their own key |
| OutputMeaning.StaleMeaning | app/model_engine/output_normalization.py:425-484 | The stale inputs are exactly the latest statement past 430 days, or 190 when it is not annual, and the price and the rate past ten days, each with its date and age |
| OutputMeaning.ReferenceDateMeaning | app/model_engine/output_normalization.py:654-667 | Staleness is measured from the request's date, else the dataset's, else its price date, else its latest statement's, else the clock |
| OutputMeaning.ProxiesMeaning | app/model_engine/output_normalization.py:316-422 | Each proxy is reported exactly for its model and its condition on the payload |
| OutputMeaning.VerdictMeaning | app/model_engine/output_normalization.py:487-516 | Cash-flow models are refused exactly for issuers said not to be supported or like a financial firm; five other models are cautious exactly about the latter |
| OutputMeaning.ContextMeaning | app/model_engine/output_normalization.py:250-301 | The issuer's classification is the request's, else the one the result carries, else the dataset's |
| OutputMeaning.WarningsMeaning | app/model_engine/output_normalization.py:548-571 | The misleading reasons are exactly those due, stripped, without blanks or repeats |
| OutputMeaning.MissingMeaning | app/model_engine/output_normalization.py:304-313 | The missing fields are exactly the non-empty entries of the first list the payload has, in order and without repeats |
| OutputMeaning.StatusMeaning | app/model_engine/output_normalization.py:156-176 | The status is named by `model_status`, else `status`, in any case; an unknown name is insufficient data |
| OutputMeaning.FieldsShown | app/model_engine/output_normalization.py:519-545 | A field is shown exactly when it is the model's, the snapshot or some period has it, and, for a DCF, it is no part of a proxy that was not used |
| OutputNormalization.CollectFields | app/model_engine/output_normalization.py:519-545 | The loop over the model's candidates, with its two skips, lists the fields specified |
| OutputNormalization.FieldsMeaning | app/model_engine/output_normalization.py:519-545 | A field is listed if and only if it is a candidate of the model and used, in strict order without repeats |
| OutputNormalization.StandardizingIsIdempotent | app/model_engine/output_normalization.py:161-211 | Standardising a standardised result changes nothing but, possibly, its formula ids, and nothing at all when those ignore the ids already there |
| OutputNormalization.DerivedTwice | app/model_engine/output_normalization.py:173-196 | Nothing derived from a result changes when it is derived again from the standardised result |
| OutputNormalization.DeriveReads | app/model_engine/output_normalization.py:250-516 | What is derived depends only on ten payload keys and the status |
| OutputNormalization.KeepsWhatItDoesNotWrite | app/model_engine/output_normalization.py:198-211 | Every other key, and a version already there, is left as it was |
| OutputNormalization.StatusTextIsNormal | app/model_engine/output_normalization.py:156-158 | A normal status is its own normal form |
| OutputNormalization.ConfidenceNeverRisesWithTime | app/model_engine/output_normalization.py:425-484 | The same result is never trusted more, in score or label, when it is looked at later |
| OutputNormalization.ClockMattersExactlyWhen | app/model_engine/output_normalization.py:654-667 | The clock decides staleness exactly when neither the request nor the dataset carries a date |
| FreshnessMigration.Database.Upgrade | alembic/versions/20260501_0041_drop_company_last_checked_columns.py:38-90 | The loops over the columns give every state row and cell its specified value, so the nine steps do not interfere; all nine columns are gone |
| FreshnessMigration.Database.MoveStamps | alembic/versions/20260501_0041_drop_company_last_checked_columns.py:43-86 | The insert statements, one per column present, merge every timestamp into its row |
| FreshnessMigration.Database.Downgrade | alembic/versions/20260501_0041_drop_company_last_checked_columns.py:93-118 | The downgrade restores every cell that was null from its state row and keeps the others and the state table |
| FreshnessMigration.UpgradeNeverMovesBack | alembic/versions/20260501_0041_drop_company_last_checked_columns.py:74-82 | Every state row survives; last_checked and updated_at never move back, a success is kept, every other field is untouched |
| FreshnessMigration.UpgradeKeepsEveryStamp | alembic/versions/20260501_0041_drop_company_last_checked_columns.py:47-86 | No company timestamp is lost: its row's last_checked is the later of the timestamp and the row's own, and a new row says checked and succeeded then, with no failure |
| FreshnessMigration.UpgradeTouchesNothingElse | alembic/versions/20260501_0041_drop_company_last_checked_columns.py:47-86 | Rows no company timestamp stands behind are left as they were, and no other row appears |
| FreshnessMigration.RoundTrip | alembic/versions/20260501_0041_drop_company_last_checked_columns.py:38-118 | Upgrade then downgrade leaves the later of the company's timestamp and the prior state value, and nothing when there is no state table |
| FreshnessMigration.RoundTripIsExactWhen | alembic/versions/20260501_0041_drop_company_last_checked_columns.py:38-118 | The company table comes back if and only if the state table knew no later check, or, without it, no cell had a timestamp |
| FreshnessMigration.UpgradeAgainKeepsRowWhen | alembic/versions/20260501_0041_drop_company_last_checked_columns.py:38-118 | Downgrade then upgrade keeps a state row if and only if a checked row also succeeded and was not checked after its last update |
| FreshnessMigration.FailedCheckComesBackAsSuccess | alembic/versions/20260501_0041_drop_company_last_checked_columns.py:79-80 | Otherwise a check without a success comes back as a success at that time |
| Rounding.RoundIsNearest | app/observability.py:351-351 | Rounding moves a number by at most a half, and a tie goes to the even neighbour |
| Rounding.RoundTo3IsNearest | app/observability.py:405-413 | Rounding to three places moves a number by at most half a thousandth, to whole thousandths |
| PoolTelemetry.PoolState.RecordWait | app/db/session.py:159-173 | After any samples the running average times the count is their sum, the maximum is their maximum and the last is the last |
| PoolTelemetry.PoolState.RecordActivity | app/db/session.py:176-193 | An activity is logged exactly when it is high and does not repeat the one just before it |
| PoolTelemetry.AverageStep | app/db/session.py:168-172 | The incremental update keeps the average times the count equal to the sum |
| PoolTelemetry.LargestIsMaximum | app/db/session.py:173-173 | The recorded maximum is one of the samples (or zero) and no sample exceeds it |
| PoolTelemetry.UtilizationMeaning | app/db/session.py:125-139 | Utilisation is the share checked out of the slots the pool can hand out, and is high from four fifths on |
| PoolTelemetry.RepeatsWarnOnce | app/db/session.py:176-193 | However often one high activity repeats, it is warned about at most once |
| PoolTelemetry.SameSignatureExactlyWhen | app/db/session.py:181-182 | Two activities count as the same when event, slots checked out, overflow above zero and whole percentage agree |
| Statistics.SummaryIsOrdered | app/observability.py:405-413 | In every non-empty summary p50 <= p95 <= max and avg <= max, before and after rounding, for all lengths |
| Statistics.PercentileFacts | app/observability.py:347-352 | A percentile is one of the values, grows with its quantile, and at 1 is the maximum |
| Statistics.MedianMeaning | app/observability.py:405-413 | The median is the middle value in order, or half the sum of the two middle ones |
| Statistics.SummaryForgetsOrder | app/observability.py:405-413 | A summary does not depend on the order of its values |
| Observability.WorkerLog.Observe | app/observability.py:228-259 | The buffer stays the last records since the reset and the total counts every failed refresh since then; an interruption is recorded as still running |
| Observability.WorkerLog.Reset | app/observability.py:292-298 | A reset empties buffer and total and reports how many records were cleared |
| Observability.TotalCoversBuffer | app/observability.py:250-259 | The failure total is at least the number of failures still in the buffer |
| Observability.SummarizeWorkers | app/observability.py:425-444 | The grouping and counting loops give one summary per job, most urgent first |
| Observability.SummariesCoverRecords | app/observability.py:425-444 | The jobs' counts add up to the number of records and their failures to the number of failed records |
| Observability.SummaryCounts | app/observability.py:425-440 | A summary counts the records of its kind and job, and those of them that failed |
| Observability.SummariesAreOrdered | app/observability.py:425-444 | Every job with a record has exactly one summary, its statistics are ordered, and summaries come by failures, then by 95th percentile, from the greatest down |
| Grouping.GroupsPartition | app/observability.py:425-428 | Whatever is counted, the groups' counts add up to the count over all records |

## Left out

- SQL sessions, Redis, HTTP and FastAPI: tables are sequences or maps, a flush assigns the next id, and each statement is
  one function on the tables. Ids a rolled-back attempt would skip are not skipped.
- The broker: its answers are a script, so a run over a script is a finite prefix of a possibly endless run. Leases,
  claim tokens and heartbeats are not part of this model.
- Threads: the concurrent worker is a sequence of its own steps; when a future finishes is part of the script.
- SerialWorker.Worker.Run: states what holds over a finite script; that an idle worker keeps polling is not stated.
  Interruptions are modelled while recovering, claiming, creating, running or closing, and in the exit steps before and
  during the close, not between any two statements.
- ConcurrentWorker.Worker.Run: that every active job is eventually reported finished is up to the script.
- The valuation formulas under app/model_engine/models: one uninterpreted function of what is signed and what is not.
- SHA-256 and JSON serialisation of the signature: taken to be injective.
- Fetching the risk-free rate, behind a cache file: the engine's read for the signature and the formula's own read within
  one call are assumed to agree.
- IEEE floating point: amounts, averages and durations are reals, confidence scores are hundredths; the average of a
  long list of floats may differ from the real one in its last digits.
- NaN and infinities in statement data: not part of this model.
- Provenance.EntryAsOfIsNewest: as-of texts of one call are all timezone-aware or all naive, so that instants compare; the
  source raises on a mixture. Texts that do not parse are followed in the merge but not ordered.
- Parsing and printing of instants, dates and integers: parameters for which parsing undoes printing, and dates and
  integers print without `:` and `;`, instants without `=`. The parser of provenance as-of texts is a parameter too.
- `urlencode` and its decoder: taken to be inverse; a query is its list of decoded parameters.
- QueryCanon.SameCanonicalSameKey: the financials, overview and workspace-bootstrap routes; the models and peers routes
  read repeated parameters through parsers that are not part of this model.
- `strip` and `lower`: ASCII only. Tickers are given stripped and in upper case; handlers also drop `$` from them.
- HandlerKeys.BootstrapAsksForStoredExactlyWhen: how the framework reads integers and booleans is a parameter; dates are
  read from texts without outer blanks, and where both integer readers accept a text they agree.
- The key of an older layout that the financials handler looks up but never stores under is not part of this model.
- Extraction of parties, amounts and documents from filings: inputs of the chain and statement models.
- ChainIdentity.SameFullKeyExactlyWhenSameIdentity: base forms without `:`, CIKs and names without `|`; a name with `|`
  inside joins ambiguously.
- ChainTheorems.LinksLeadToTheFirst: requires distinct accession numbers, without which a previous number may name several
  reports.
- OutputNormalization.Standardize: fixed texts, date parsing, sector keywords and formula ids are parameters;
  proxy items and stale items are named rather than spelled out.
- Confidence.ConfidenceProfile: the final formatting of a score with two decimals is a parameter.
- Observability.SummarizeWorkers: request records are buffered and summarised by the same steps over more columns; only
  the worker half is modelled.
- FreshnessMigration.Database.Upgrade: state rows and companies beyond the columns named in the migration, and the
  surrogate ids of state rows, are not part of this model; each statement sees one snapshot of both tables.
- Backfill command-line parsing and reporting: the scope is the distinct lower-case items the parser leaves.
- Backfill.RecheckIsNeverCurrent: with no other writer between loading the rows and the recomputation.
- Bulk upsert of snapshots and the dataset-checked marker: rows are written one by one, the marker is not modelled.
- Other migrations, ORM declarations, configuration, authentication, benchmark scripts and the frontend: they would only
  add easy members.
