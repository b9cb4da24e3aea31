# Verification of Signalattice's stateful cores

A Dafny model of the parts of the repository whose correctness is about whole runs, whole files or whole
histories, with proofs of what they promise. `dafny verify dfyconfig.toml` checks everything.

| file | models |
|---|---|
| `Common.dfy` | options and results, string order, decimal text, stable sorting, unique keys, sorted sets |
| `BackfillPlanning.dfy`, `BackfillCatalog.dfy` | the calendar, the date partitions, the catalogue rows and their updates |
| `BackfillProtocol.dfy`, `BackfillInvariant.dfy`, `BackfillSafety.dfy`, `BackfillAssembly.dfy`, `BackfillLiveness.dfy`, `BackfillStranding.dfy`, `BackfillRetry.dfy` | the orchestrator as a transition system with crashes, and what holds over all runs |
| `PortfolioLimits.dfy`, `RowWeights.dfy`, `Backtest.dfy` | the portfolio engine over reals |
| `ZipLayout.dfy`, `ArchiveInventory.dfy`, `WheelRecord.dfy`, `Streams.dfy`, `SdistExpansion.dfy` | the distribution verifier: ZIP layout, inventory, RECORD, tar tail, gzip expansion; and the chunked secret scan |
| `PagedFetch.dfy`, `SnapshotCache.dfy` | the bounded paginated fetch and its crash-ordered cache |
| `BitemporalRecords.dfy`, `SignalFoundryBundle.dfy` | point-in-time records and content-addressed bundles |
| `Publication.dfy`, `WeightProjection.dfy`, `BoundedLoops.dfy` | no-replace publication, the capped projection, and three bounded loops |

Durable state is a map or a record of fields; each SQL statement, rename and file replacement is one atomic step, and a
behaviour is any sequence of events, so the adversary chooses schedules, answers, chunk sizes and crashes. Objects the
program updates in place are classes whose methods are proved against specification functions; hashes are injective and
stand for what they hash.

## What the proofs found

- `_date_partitions` cannot finish a window that ends on 9999-12-31: it steps past the last date.
- A backfill job can be stranded for ever, refused by every later run: by a crash while it is running with work pending,
  by a crash between assembly and publication (that step is outside the `try`), by a failure or an interrupt with nothing
  left pending, and by a duplicate key inside one accepted checkpoint; each of these is reached from a fresh catalogue.
  The exact resume rule is `BackfillSafety.ResumeIsExact`, the exact condition for eventual publication
  `BackfillLiveness.PublishableIsExact`.
- A backtest does look ahead, through its column list: the common columns are taken from the whole return panel, so a
  scored ticker whose first return lies in the future changes how many names are picked today
  (`Backtest.FutureColumnChangesPast`), and a ticker scored only later can turn a day without returns into one with a
  return of zero (`Backtest.FutureScoreFillsGap`). `Backtest.NoLookahead` is the exact statement without these two.
- The projection onto the caps falls back to the uniform book whenever the assets that carry mass cannot hold a whole
  book inside the cap, contrary to the comment that clip-and-divide converges in practice: one asset of four under a cap
  of 0.9 is answered with a quarter each (`WeightProjection.SettlesIff`, `CrowdedFallsBack`, `FallbackExample`). Where
  they can, a hundred rounds may still be too few (`SlowExample`); `SettlesInTime` says when they are enough.
- A bundle's name fixes its records and Parquet files, but not `created_at`, other manifest keys or other files: a valid
  bundle with these edited is still valid under its name, and an export leaves it as it is.
- The canonical order of memberships and actions does not contain their identity and the sort is stable, so two records
  that tie keep their input order: the same records in another order can be exported under another bundle name
  (`SignalFoundryBundle.OrderChangesName`), exactly when there is a tie (`NameOrderFreeIff`).
- A page is staged before it is parsed, so one malformed page blocks its request until staging is removed by hand; a
  staging directory can lead to a finished fetch exactly when it holds no such page (`PagedFetch.FinishableIff`).
- A snapshot is promoted before its table is checked and before its manifest is written; a refused table or a crash there
  leaves those pages unusable for ever, although the pointer stays sound; every table can meet this fate.
- The availability lag is not part of the request hash: a cached load under another lag returns a manifest that describes
  the writer's lag, and equals the writer's result exactly when the lags agree.
- A publisher can be refused although the destination holds its own bytes, exactly when the winner drops its temporary
  name between the two file-status reads (`Publication.CompareDecides`, `EqualBytesRefused`); it never succeeds wrongly.
- The secret scan does not search an empty member.

## Model

| member | source | states |
|---|---|---|
| BackfillPlanning.DatePartitions | src/quant_platform/features/backfill.py:658-679 | The cursor loop ends and returns pieces that tile [start, end]: the first starts at start, the last ends at end, each next piece starts the day after the previous one, and each piece lies in one calendar year or month. It fails exactly when the window is nonempty and ends on 9999-12-31, where the next cursor would not be a date |
| Calendar.MonthLengths | src/quant_platform/features/backfill.py:668-671 | The month ends the pieces stop at: the twelve month lengths, with the Gregorian leap rule |
| BackfillPlanning.KeyText | src/quant_platform/features/backfill.py:666-672 | A partition key is the year in four digits, and for months a hyphen and the month in two |
| BackfillPlanning.KeyIdentifiesPeriod | src/quant_platform/features/backfill.py:658-679 | Two dates get the same partition key exactly when they are in the same year (or month) |
| BackfillPlanning.EveryDayOnce | src/quant_platform/features/backfill.py:658-679 | Every day of the window is covered by exactly one partition, leap years and month lengths included |
| BackfillPlanning.SamePieceIffSamePeriod | src/quant_platform/features/backfill.py:658-679 | Two days of the window share a partition exactly when they share the calendar period |
| BackfillPlanning.TilingUnique | src/quant_platform/features/backfill.py:658-679 | There is only one tiling of a window at a granularity, so the method above computes it |
| BackfillPlanning.TilesPassCoverage | src/quant_platform/features/backfill.py:83-95 | Every tiling passes the plan validator |
| BackfillCatalog.CreatedPlanIsValid | src/quant_platform/features/backfill.py:97-116 | BackfillPlan.create always builds a valid plan from a calendar tiling |
| BackfillFrames.CheckpointFrameIff | src/quant_platform/features/backfill.py:314-325 | A load is accepted exactly when it has at most max_rows_per_partition rows and every row lies in the window; an empty load is accepted |
| BackfillFrames.CheckpointFrameOk | src/quant_platform/features/backfill.py:305-356 | What is written for a partition is within the row bound, inside the window, sorted, and exactly the loaded rows with upper-cased tickers: nothing is lost, and a repeated key is not refused here |
| BackfillFrames.CheckpointFrameWritten | src/quant_platform/features/backfill.py:326-331 | The written rows are in the order of time and ticker, and no written ticker has an ASCII lower-case letter |
| BackfillLiveness.LoadDecides | src/quant_platform/features/backfill.py:305-356 | A queued task whose loader answers gets a checkpoint to write exactly when the answer is within the row bound and the window, and fails otherwise; either way one load is counted |
| BackfillCatalog.VerifiesIff | src/quant_platform/features/backfill.py:464-475 | A checkpoint verifies exactly when it is the checkpoint of the file now under its key |
| BackfillCatalog.Catalogue.EnsureJobRow | src/quant_platform/features/backfill.py:377-423 | Refused exactly when another plan is stored under the identifier; otherwise the job and partition rows are inserted once, an existing plan keeps its rows, and the object of a published job is returned |
| BackfillCatalog.Catalogue.ClaimPending | src/quant_platform/features/backfill.py:266-273 | The claim loop goes through exactly when every pending row may be claimed once more: then each is running with one attempt more and everything else is as before; when it stops, exactly the rows before the refused one, or up to the exhausted one, are claimed |
| BackfillCatalog.Catalogue.CollectResults | src/quant_platform/features/backfill.py:281-303 | For any completion order results are recorded one by one up to the first failure or the interruption: the rows before it are completed with their checkpoints, the failing row and the job are failed or the job interrupted, and rows behind it stay running |
| BackfillCatalog.Catalogue.AssembleAndPublish | src/quant_platform/features/backfill.py:193-214 | The end of a run publishes exactly when every checkpoint is there, the job may start assembling, assembly succeeds and storage keeps the object; an assembly error leaves the job assembling and a storage error leaves it failed |
| BackfillCatalog.Catalogue.RecoverCheckpoints | src/quant_platform/features/backfill.py:425-462 | For any order in which the rows come back: recovery returns every completed checkpoint and the unfinished partitions in plan order, and fails exactly when a completed file no longer verifies or an unfinished row has used its attempts |
| BackfillCatalog.Catalogue.Assemble | src/quant_platform/features/backfill.py:358-375 | Assembly returns the sorted concatenation of the verified files in plan order, and fails exactly when a file does not verify, no row was loaded or a key repeats |
| BackfillCatalog.WindowsForward | src/quant_platform/features/backfill.py:83-95 | Planned windows are ordered and disjoint |
| BackfillInvariant.StepKeeps | src/quant_platform/features/backfill.py:154-356 | Every step of the main thread or a worker, and a crash at any moment, keeps the invariant and undoes no completed partition and no publication |
| BackfillInvariant.EveryCheckpointPresent | src/quant_platform/features/backfill.py:183-196 | When execution finishes, every partition has a checkpoint, so the incomplete branch is dead |
| BackfillSafety.RunKeeps | src/quant_platform/features/backfill.py:154-214 | The same over every sequence of runs, crashes, worker schedules and loader answers |
| BackfillSafety.CompletedPartitionsAreSafe | src/quant_platform/features/backfill.py:305-356 | A completed partition has a file on disk whose content, hash and row count are the recorded ones, and no later step rewrites it, reloads it or changes its row |
| BackfillSafety.PublishedIsAbsorbing | src/quant_platform/features/backfill.py:580-596 | A published job keeps its state and object for ever, and the object is the assembly of its completed files |
| BackfillSafety.AttemptsAreBounded | src/quant_platform/features/backfill.py:257-273 | Loader calls for a partition never exceed its attempts, attempts never exceed max_attempts, and the over-claim guard is dead |
| BackfillSafety.LoaderCallsAreBounded | src/quant_platform/features/backfill.py:257-273 | Over all runs together the loader is called at most partitions times max_attempts times |
| BackfillSafety.RecoverableIff | src/quant_platform/features/backfill.py:425-462 | In reachable states recovery succeeds exactly when no unfinished partition has used up its attempts |
| BackfillSafety.ResumeIsExact | src/quant_platform/features/backfill.py:182-207 | Exact resume rule: a run gets past its job transitions iff the job is published, or no unfinished partition is exhausted and either something is pending and the job is planned, interrupted or failed, or nothing is pending and it is running or planned; otherwise it changes nothing |
| BackfillSafety.RefusedForever | src/quant_platform/features/backfill.py:182-207 | A job the rule refuses is never moved again by any number of further runs |
| BackfillSafety.CrashStrandsJob | src/quant_platform/features/backfill.py:182-207 | For every plan one crash right after the job is marked running reaches such a refused state |
| BackfillAssembly.AssemblyIff | src/quant_platform/features/backfill.py:358-375 | Assembly of sound checkpoints succeeds exactly when some partition has rows and no single checkpoint repeats a key: keys never clash across partitions |
| BackfillAssembly.GatherIsBetween | src/quant_platform/features/backfill.py:358-375 | If every checkpoint restricts one global frame, the files in plan order are the global rows from the plan start to the current boundary, as a multiset |
| BackfillAssembly.PublishedMeansWholeFrame | src/quant_platform/features/backfill.py:305-375 | With a loader that restricts one global frame, the published object is the whole window of that frame, normalised and sorted once, whatever the schedule, crashes and retries: no row lost, added or duplicated |
| BackfillAssembly.GranularityIsIrrelevant | src/quant_platform/features/backfill.py:305-375 | Year and month plans of one window publish the same frame |
| BackfillLiveness.OnlyPublishable | src/quant_platform/features/backfill.py:182-214 | A state from which some continuation publishes satisfies the publishability condition |
| BackfillLiveness.CanPublishAnswers | src/quant_platform/features/backfill.py:182-214 | From a resumable idle state, whatever frames the loader has for what is pending: when each is within bound and window and repeats no key and there is some row, the run that loads exactly these frames publishes |
| BackfillLiveness.OrdinaryRunPublishes | src/quant_platform/features/backfill.py:154-214 | From an empty catalogue: when the rows of one frame fit the bound, repeat no key and some lie in the window, the run whose loader restricts that frame publishes the whole window of it, normalised and sorted |
| BackfillLiveness.CanPublish | src/quant_platform/features/backfill.py:182-214 | Every publishable idle state has a continuation that publishes |
| BackfillLiveness.PublishableIsExact | src/quant_platform/features/backfill.py:182-214 | Publication is reachable from an idle state iff it is publishable: resumable, no poisoned checkpoint, and some row or pending partition |
| BackfillLiveness.ReachesAssembly | src/quant_platform/features/backfill.py:196-207 | Every plan has a run that reaches the assembling state with checkpoints whose assembly succeeds |
| BackfillLiveness.AssemblyCrashStrands | src/quant_platform/features/backfill.py:196-207 | A crash anywhere between the assembling transition and publication leaves the job assembling, refused and unchanged for ever |
| BackfillLiveness.MaterializeFailureStrands | src/quant_platform/features/backfill.py:196-214 | A failed materialisation marks the job failed with nothing pending, which strands it for ever |
| BackfillStranding.InterruptStrands | src/quant_platform/features/backfill.py:296-301 | Every plan has a run that is interrupted with its last result, with nothing left pending, after which no run ever changes the job |
| BackfillStranding.StorageFailureStrands | src/quant_platform/features/backfill.py:196-214 | Every plan has a run with good checkpoints whose materialisation fails, leaving the job failed with nothing pending, after which no run ever changes it |
| BackfillStranding.RepeatedKeyStrands | src/quant_platform/features/backfill.py:305-375 | Every plan that admits two rows has a run without crash, failure or interrupt in which one loader answer repeats a key, is accepted and completed, and strands the job in assembly for ever |
| BackfillStranding.PoisonedNeverPublished | src/quant_platform/features/backfill.py:305-375 | Once a completed checkpoint repeats a key no continuation publishes the job |
| BackfillRetry.RetryPublishes | src/quant_platform/features/backfill.py:257-303 | A first run that fails because one load fails, is too long or out of its window leaves that row and the job failed with one attempt spent; with a second attempt allowed the next run, for any acceptable answers, publishes |
| BackfillRetry.WriteInstalls | src/quant_platform/features/backfill.py:332-356 | A write puts the computed frame at its partition's path, once, and touches no row and no other file |
| BackfillRetry.WriteFails | src/quant_platform/features/backfill.py:284-303 | A write that fails leaves its row and the job failed, and every file as it was |
| BackfillRetry.DrainWaits | src/quant_platform/features/backfill.py:274-303 | A stopped run does not end while a worker still has a frame to write |
| BackfillRetry.InterruptedResumes | src/quant_platform/features/backfill.py:290-303 | An interrupted run marks the job interrupted and keeps rows and files; with something pending and attempts left the next run goes on |
| PortfolioLimits.EnforceMeetsLimits | src/quant_platform/backtest/engine.py:128-162 | Enforcement yields every position within the cap, gross at most max_leverage and, for long_short, equal long and short sums; it keeps signs and enlarges no position |
| PortfolioLimits.CapEntries | src/quant_platform/backtest/engine.py:128-136 | Every position is clipped to the cap on its own side |
| PortfolioLimits.EnforceLongOnly | src/quant_platform/backtest/engine.py:128-162 | A long-only row keeps the shares of the row clipped at the cap, at the smaller of its gross and the leverage |
| PortfolioLimits.EnforceLongShort | src/quant_platform/backtest/engine.py:128-162 | A long-short row keeps the shares of each clipped side, both sides coming to the smallest of the two clipped sides and half the leverage |
| PortfolioLimits.EnforceFixesOnlyViolations | src/quant_platform/backtest/engine.py:148-162 | A row is changed exactly when it breaks a limit |
| PortfolioLimits.EnforceIdempotent | src/quant_platform/backtest/engine.py:148-162 | Enforcing twice is enforcing once |
| RowWeights.EqualWeightsInPlace | src/quant_platform/backtest/engine.py:111-125 | The in-place writes into a zero row compute the equal-weight target: the top picks long, and short the bottom picks that are not already long |
| RowWeights.Assign | src/quant_platform/backtest/engine.py:111-125 | A masked assignment writes the value at the masked positions and nothing else |
| RowWeights.RankBudget | src/quant_platform/backtest/engine.py:98-109 | Rank weights spend exactly max_leverage long (or half long and half short), or nothing |
| RowWeights.TargetBudget | src/quant_platform/backtest/engine.py:72-125 | Every weighting and selection mode spends exactly its budget, or nothing |
| RowWeights.PicksAreExtreme | src/quant_platform/backtest/engine.py:111-125 | A position held longer than another never has the lower score, however ties are ordered |
| RowWeights.EqualTarget | src/quant_platform/backtest/engine.py:111-125 | By place in the descending order: the first k names, k the rounded quantile, share the long side equally, the last k that are not among them the short side, and without any such name a long-short row is flat |
| RowWeights.EqualUnscored | src/quant_platform/backtest/engine.py:72-80 | A name without a score has no weight under equal weights |
| RowWeights.ThresholdTarget | src/quant_platform/backtest/engine.py:83-96 | The k most extreme scores beyond each threshold, the leftmost first among equals, share the leverage; long-short spends half a side, and nothing when a side is empty |
| RowWeights.RankExact | src/quant_platform/backtest/engine.py:98-99 | A percentile rank is the number of lower scores and half of one more than the number of equal ones, over the number of scores |
| RowWeights.RankTarget | src/quant_platform/backtest/engine.py:98-109 | Rank weights are in proportion to the rank above one minus the quantile, or to its distance from the mean rank, with the leverage as their gross |
| Backtest.ApplyRebalanceThreshold | src/quant_platform/backtest/engine.py:165-176 | The stateful loop computes the band recursion |
| Backtest.BandTracksTarget | src/quant_platform/backtest/engine.py:165-176 | A position moves to its target exactly when that lies at least the threshold away from it, and otherwise stays as it was |
| Backtest.OutputsWithinLimits | src/quant_platform/backtest/engine.py:274-294 | Every held row of a successful backtest is within the limits, after band, lag and volatility overlay |
| Backtest.RunIff | src/quant_platform/backtest/engine.py:241-295 | A backtest succeeds exactly when some ticker is common to both tables, the calendar is longer than the lag, no position over 1e-12 meets a missing return on a day it is held, and the benchmark has a return on every output day |
| Backtest.CalendarExact | src/quant_platform/backtest/engine.py:265-271 | The calendar runs from the first signal date to the last one, and the lag further |
| Backtest.HeldExact | src/quant_platform/backtest/engine.py:273-283 | Without a band, what is held on an output day is the limited target of the last signal dated on a calendar day up to lag days before it, and nothing before the first signal |
| Backtest.HeldBanded | src/quant_platform/backtest/engine.py:273-283 | With a band, the limited targets pass through it from nothing held, and through the limits once more |
| Backtest.WeightsExact | src/quant_platform/backtest/engine.py:179-196 | The weights of an output row are the held ones, or under volatility targeting those at the multiplier and within the limits, the volatility being that of what the unscaled weights earned on the 63 days before |
| Backtest.RowAccounts | src/quant_platform/backtest/engine.py:284-300 | Of every output row: turnover is the sum of the absolute moves since the row before, cost the turnover at cost and slippage basis points, gross the sum of weight times return over the tickers with a return that day, and net is gross less cost |
| Backtest.NoLookahead | src/quant_platform/backtest/engine.py:212-300 | Let two successful backtests agree on the start, on scores at the calendar rows up to one lag before an output row and on returns up to that row, and let every ticker scored by then be a column of both panels or of neither. Then their output rows up to there are equal exactly when the same days have a return for some common ticker, and without the volatility overlay dates, weights, turnover and cost are equal in any case |
| Backtest.FutureColumnChangesPast | src/quant_platform/backtest/engine.py:257-263 | The column condition is needed: for all returns there are two panels with equal scores that agree up to the output day and give different weights on it, because one ticker has its first return later and the common columns are taken from the whole panel |
| Backtest.FutureScoreFillsGap | src/quant_platform/backtest/engine.py:257-287 | So is the other condition: with one and the same panel, whether a ticker is scored on a later day decides between no net return and a zero one today |
| Backtest.OutputsAgreeIff | src/quant_platform/backtest/engine.py:274-294 | For equal holdings over returns that agree where something is held, the output rows are equal exactly when the same days have any return |
| Bytes.UnpackOfPack | scripts/verify_distributions.py:563-600 | Fixed-width little-endian fields read back as written |
| Bytes.PackOfUnpack | scripts/verify_distributions.py:563-600 | Every byte string of the right length is the packing of its fields |
| ZipLayout.PreflightSound | scripts/verify_distributions.py:499-547 | An accepted file ends with the exact 22 bytes of a well-formed end record, without a comment, whose directory bounds add up to the file size |
| ZipLayout.PreflightComplete | scripts/verify_distributions.py:499-547 | Every file that ends with such a record is accepted, with that record |
| ZipLayout.NoMarkerInEnd | scripts/verify_distributions.py:499-547 | Below the container ceiling an end record cannot contain a second marker, so the backward search finds the right one |
| ZipLayout.CentralLayout | scripts/verify_distributions.py:563-600 | A central record, byte by byte: signature, then every field at its place and width, lowest byte first, then the name |
| ZipLayout.LocalLayout | scripts/verify_distributions.py:665-682 | A local header, byte by byte, in the same way |
| ZipLayout.LeExact | scripts/verify_distributions.py:563-600 | A two-byte and a four-byte field hold their value lowest byte first |
| ZipLayout.ParseCentralSound | scripts/verify_distributions.py:563-636 | A parsed central record is the packing of its fields and satisfies every field rule |
| ZipLayout.ParseCentralComplete | scripts/verify_distributions.py:563-636 | Every packed central record that satisfies the rules is parsed back |
| ZipLayout.ReadZipCentralRecords | scripts/verify_distributions.py:563-636 | The cursor loop accepts exactly the concatenations of that many good records, and returns them |
| ZipLayout.CheckLocalIff | scripts/verify_distributions.py:639-724 | One local header passes exactly when it matches its central record and its data fits |
| ZipLayout.VerifyZipLocalLayout | scripts/verify_distributions.py:639-724 | The offset-ordered loop accepts exactly the gap-free, disjoint tilings of the bytes before the directory |
| ZipLayout.TiledIsCanonical | scripts/verify_distributions.py:639-724 | A file that passes is the members in offset order, then the directory, then the end record |
| ZipLayout.CanonicalPassesParts | scripts/verify_distributions.py:499-724 | Every canonical layout passes all three checks |
| ZipLayout.VerifyZip | scripts/verify_distributions.py:499-724 | No unaccounted byte: the three checks accept a file exactly when it is, byte for byte, a canonical layout of at most 16 MiB (sections 4.3.7, 4.3.12 and 4.3.16 of PKWARE APPNOTE) |
| ZipLayout.DirectoryOrderIrrelevant | scripts/verify_distributions.py:639-724 | Any permutation of the central records of an accepted archive is accepted too |
| TarTail.OneCanonicalSize | scripts/verify_distributions.py:1080-1128 | The size tests allow one size only: payload plus 1024, rounded up to 10240 |
| TarTail.VerifyTarEndPadding | scripts/verify_distributions.py:1080-1128 | Accepted exactly when the payload end is block-aligned, the size a multiple of 10240 that leaves from 1024 to less than 11264 bytes, and these are all zero, for every pattern of short reads |
| SdistExpansion.PreflightGzipHeader | scripts/verify_distributions.py:981-1013 | The header passes exactly when its magic and flags are canonical and its NUL-terminated name is the expected one |
| SdistExpansion.ExpandSdist | scripts/verify_distributions.py:1016-1077 | For every chunking of input and output: accepted exactly when the header passes and the file is one whole gzip member and nothing else, with a nonempty, block-aligned expansion of at most 40 MiB, and then exactly that expansion is written |
| ArchiveInventory.JoinInjective | scripts/verify_distributions.py:400-403 | Portable keys determine their component lists |
| ArchiveInventory.KeysEqualIff | scripts/verify_distributions.py:400-403 | Two paths have one portable key exactly when they differ in the case of ASCII letters alone |
| ArchiveInventory.FoldExact | scripts/verify_distributions.py:400-403 | Folding changes the ASCII capitals alone, each to its small letter |
| ArchiveInventory.FileCountIs | scripts/verify_distributions.py:413-425 | The file count is the number of members that are no directories |
| ArchiveInventory.Inventory.Register | scripts/verify_distributions.py:464-489 | Registering one more member succeeds exactly when the list stays collision-free, and the two dictionaries keep mirroring it |
| ArchiveInventory.CanonicalInventory | scripts/verify_distributions.py:413-439 | The incremental check accepts a member list exactly when it parses, fits the counts, its portable keys are pairwise distinct and no file key is a proper ancestor of another key |
| ArchiveInventory.OrderIrrelevant | scripts/verify_distributions.py:413-461 | Collision freedom and the need for each explicit directory are invariant under permutation of the entries |
| ArchiveInventory.AcceptancePermuted | scripts/verify_distributions.py:413-461 | Any permutation of an accepted member list is accepted too, counts and names included, with the same entries permuted and the same verdict on explicit directories |
| ArchiveInventory.RejectUnnecessaryDirectories | scripts/verify_distributions.py:442-461 | Accepted exactly when every explicit directory is an ancestor of some file |
| Base64Url.DecodeOfEncode | scripts/verify_distributions.py:782-796 | Unpadded base64url decodes back (sections 3.5 and 5 of RFC 4648) |
| Base64Url.EncodeInjective | scripts/verify_distributions.py:782-796 | Different byte strings have different encodings |
| Base64Url.EncodedLength | scripts/verify_distributions.py:782-796 | Encoded length; 32 bytes give 43 characters |
| Base64Url.AlphabetExact | scripts/verify_distributions.py:782-796 | The alphabet of section 5 of RFC 4648 |
| Base64Url.QuadBits | scripts/verify_distributions.py:782-796 | Every three bytes are four groups of six bits, the highest first |
| Base64Url.TailBits | scripts/verify_distributions.py:782-796 | Two bytes left over are three groups, the last two bits zero |
| WheelRecord.DigestIsBijective | scripts/verify_distributions.py:782-796 | A RECORD hash field decodes to a digest iff it is that 32-byte digest in its one canonical spelling |
| WheelRecord.SizeIsCanonical | scripts/verify_distributions.py:799-859 | A size field reads as n iff it is the canonical decimal of n |
| WheelRecord.CheckRowIff | scripts/verify_distributions.py:799-859 | One row passes exactly when it is the unhashed RECORD row, or its member decompresses to the size it declares, at most 8 MiB, and the row carries sha256= with the encoded digest and the decimal size of that content |
| WheelRecord.VerifyWheelRecord | scripts/verify_distributions.py:799-859 | Accepted exactly when rows and files correspond one to one, RECORD alone is unhashed and every other row is true |
| RateLimit.RequestBudget.BeforeRequest | src/quant_platform/data/nasdaq_data_link.py:141-155 | Refused exactly at the cap; otherwise one token, at least 60/rpm after the previous request |
| RateLimit.RequestsApart | src/quant_platform/data/nasdaq_data_link.py:141-155 | Requests i and j are at least (j - i) intervals apart |
| RateLimit.MinuteSpan | src/quant_platform/data/nasdaq_data_link.py:141-155 | Two requests in one half-open minute are fewer than requests_per_minute positions apart |
| RateLimit.RateBound | src/quant_platform/data/nasdaq_data_link.py:130-155 | Over a whole run every half-open 60-second window holds at most requests_per_minute requests |
| TablePages.ParseTablePage | src/quant_platform/data/nasdaq_data_link.py:516-541 | A payload parses exactly when it is well-formed, with lower-cased columns and an empty cursor read as none |
| TablePages.LowerExact | src/quant_platform/data/nasdaq_data_link.py:530 | Lower-casing changes the ASCII capitals alone |
| TablePages.ChainIsPrefix | src/quant_platform/data/nasdaq_data_link.py:313-337 | Cursors determine the pages: any pages gathered by following them are a prefix of the complete answer |
| TablePages.CompleteUnique | src/quant_platform/data/nasdaq_data_link.py:313-337 | There is at most one complete answer, so an interrupted and resumed fetch yields what an uninterrupted one does |
| PagedFetch.Client.RequestJson | src/quant_platform/data/nasdaq_data_link.py:458-504 | The first answer whose status is not 429, 500, 502, 503 or 504 decides: a 200 object is the result, 401 and 403 are refusals of the credential, and exactly the requests up to it are made, as long as max_retries and the budget last; consecutive requests lie apart by Retry-After and by the backoff doubled each time |
| PagedFetch.BackoffDoubles | src/quant_platform/data/nasdaq_data_link.py:497-503 | Over a whole request the waits add up to the backoff times one less than the power of two of the retries |
| PagedFetch.Client.ObtainPage | src/quant_platform/data/nasdaq_data_link.py:317-327 | A staged page is used without any request; a requested one is staged |
| PagedFetch.Client.TakePage | src/quant_platform/data/nasdaq_data_link.py:313-337 | One turn: the termination measure (budget left plus staged pages ahead) drops, and staging stays a prefix of the provider's chain |
| PagedFetch.Client.FetchPages | src/quant_platform/data/nasdaq_data_link.py:313-337 | Terminates for every provider; requests only unstaged pages, each at most max_retries + 1 times; never rewrites a staged page; on every outcome staging is a prefix of a cursor-determined provider's chain; success returns its complete answer; a schema or page error means it has none, and leaves a staged page that poisons the directory |
| PagedFetch.FetchWithResumes | src/quant_platform/data/nasdaq_data_link.py:298-337 | Any number of killed, failing or budget-limited processes resuming from one staging directory: success is the complete answer, and it comes within one more attempt than the answer has pages when only the budget cuts attempts short |
| PagedFetch.FinishableIff | src/quant_platform/data/nasdaq_data_link.py:317-333 | A page is staged before it is parsed: a staging directory can still be extended to a finished fetch exactly when no page reached in it is malformed or changes the schema |
| PagedFetch.FetchFromBadProvider | src/quant_platform/data/nasdaq_data_link.py:313-337 | One fetch from an empty staging directory against a provider of malformed pages ends in a directory that no later fetch can finish from |
| SnapshotCache.StepKeeps | src/quant_platform/data/nasdaq_data_link.py:264-411 | Every durable step, failure, crash and lock removal keeps the cache invariant and changes no snapshot or manifest |
| SnapshotCache.RunKeeps | src/quant_platform/data/nasdaq_data_link.py:264-411 | The same over every run |
| SnapshotCache.ReadPages | src/quant_platform/data/nasdaq_data_link.py:788-809 | The page loop succeeds exactly on readable pages: hashes match, every page parses, one schema |
| SnapshotCache.LoadLatest | src/quant_platform/data/nasdaq_data_link.py:764-814 | Returns nothing iff there is no pointer, fails iff no result passes every check, else returns the one that does |
| SnapshotCache.LoadsWhatWasPointedAt | src/quant_platform/data/nasdaq_data_link.py:764-814 | In every reachable state the pointer leads to a snapshot with matching manifest and pages, and a load that read the pointer earlier still gets the same result from any later disk |
| SnapshotCache.LoadEqualsWriter | src/quant_platform/data/nasdaq_data_link.py:353-411 | A load returns the panel and manifest of the fetch that wrote the pointer, the existing-snapshot branch included, exactly when both use the same availability lag, which is not part of the request hash |
| SnapshotCache.CompleteFetchIsLoaded | src/quant_platform/data/nasdaq_data_link.py:264-411 | From every reachable idle, unlocked state with nothing staged, a complete fetch of an acceptable table without a snapshot ends with the pointer at its own snapshot, whose manifest records its lag, time and row count, and a load then returns its own result |
| SnapshotCache.RepeatedFetchIsLoaded | src/quant_platform/data/nasdaq_data_link.py:354-386 | The same of pages whose snapshot already has a manifest: the pointer returns to it, with that manifest |
| SnapshotCache.FailureFreesCrashHolds | src/quant_platform/data/nasdaq_data_link.py:276-297 | A failing fetch gives the lock back and changes nothing else; a killed one keeps it |
| SnapshotCache.LockExcludes | src/quant_platform/data/nasdaq_data_link.py:276-297 | While the lock is there no fetch starts, until it is removed by hand |
| SnapshotCache.StagingSurvives | src/quant_platform/data/nasdaq_data_link.py:273-297 | Staged pages survive a crash and a failure, and the next fetch goes on from them |
| SnapshotCache.OrphanForever | src/quant_platform/data/nasdaq_data_link.py:354-376 | A snapshot left without a manifest never gets one and is never pointed at |
| SnapshotCache.OrphanDefeatsFetch | src/quant_platform/data/nasdaq_data_link.py:354-361 | A fetch that gathers those pages again deletes its staging and fails |
| SnapshotCache.ManifestReachableIff | src/quant_platform/data/nasdaq_data_link.py:354-403 | A snapshot without a manifest can still get one iff the fetch that promoted it is running and its table passes the checks |
| SnapshotCache.CrashOrphans | src/quant_platform/data/nasdaq_data_link.py:376-403 | One crash between promotion and manifest orphans the pages |
| SnapshotCache.RefusalOrphans | src/quant_platform/data/nasdaq_data_link.py:376-379 | So does a table the checks refuse: it is promoted before it is checked |
| SnapshotCache.EveryTableCanBeOrphaned | src/quant_platform/data/nasdaq_data_link.py:264-403 | From an empty cache, for every nonempty chain of pages with one schema: a fetch that crashes after its rename orphans them, and after the stale lock is removed another complete fetch of the same pages changes nothing |
| SnapshotCache.EveryRefusedTableIsOrphaned | src/quant_platform/data/nasdaq_data_link.py:354-379 | From an empty cache, every table the checks refuse is orphaned by its first fetch without any crash, and fetching it again changes nothing |
| BitemporalRecords.CoerceIff | src/quant_platform/data/bitemporal_records.py:120-206 | Coercion accepts exactly the record sets with the right family, temporal order, text and action rules and unique (identity, availability) revisions; it conserves the records and sorts them canonically |
| BitemporalRecords.CoerceOrder | src/quant_platform/data/bitemporal_records.py:151-206 | Coerced records are in the order of their grouping identities, then effective, then availability time |
| BitemporalRecords.CoerceStable | src/quant_platform/data/bitemporal_records.py:120-206 | Acceptance ignores input order, and coercing twice is coercing once |
| BitemporalRecords.OrderFreeIff | src/quant_platform/data/bitemporal_records.py:147-206 | The coerced frame is the same for every order of the input exactly when no two records agree on group, effective and availability time: the sort is stable and the revision key is not part of it |
| BitemporalRecords.TieShows | src/quant_platform/data/bitemporal_records.py:147-206 | Whenever two accepted records tie, some order of the same records is coerced to another frame |
| Sorting.PairTransfers | src/quant_platform/data/bitemporal_records.py:147-150 | Two places of a sequence have counterparts in every permutation, so no duplicate check depends on order |
| Sorting.UniqueByIff | src/quant_platform/data/bitemporal_records.py:147-150 | The duplicate check depends on which records there are, not on their order |
| Text.StrLeIff | src/quant_platform/data/bitemporal_records.py:147-150 | Text sorts by code: a prefix first, otherwise the first character that differs decides |
| BitemporalRecords.VisibleIsLatest | src/quant_platform/data/bitemporal_records.py:209-221 | The as-of view holds exactly the visible records no visible revision of the same identity is later than, in identity order |
| BitemporalRecords.OneRowPerIdentity | src/quant_platform/data/bitemporal_records.py:209-221 | Every identity with a visible record has exactly one row in the view |
| BitemporalRecords.ViewDependsOnVisible | src/quant_platform/data/bitemporal_records.py:209-221 | Records not visible at t do not matter: adding, changing or reordering them leaves the view as it is |
| BitemporalRecords.ViewOfPermutation | src/quant_platform/data/bitemporal_records.py:209-221 | The view is invariant under permutation of the frame |
| BitemporalRecords.ViewAdvances | src/quant_platform/data/bitemporal_records.py:209-221 | As t grows identities never vanish and the chosen availability time never decreases |
| ContractFrame.CoerceFrameIff | src/quant_platform/data/signal_foundry_contract.py:169-208 | The canonical frame exists exactly for nonempty panels of valid rows with unique (date, ticker) keys; it conserves the rows and is sorted |
| ContractFrame.CoerceFrameOrder | src/quant_platform/data/signal_foundry_contract.py:206-208 | A canonical frame is in the order of date and ticker, each pair once |
| ContractFrame.CoerceFrameOrderFree | src/quant_platform/data/signal_foundry_contract.py:169-208 | It depends only on which rows there are |
| ContractFrame.CoerceFrameIdempotent | src/quant_platform/data/signal_foundry_contract.py:169-208 | Coercion is idempotent |
| ContractFrame.YearsExact | src/quant_platform/data/signal_foundry_contract.py:314-316 | The exported years are exactly the years present, strictly ascending |
| ContractFrame.PartitionsRejoin | src/quant_platform/data/signal_foundry_contract.py:314-330 | The year partitions in ascending order concatenate back to the canonical frame |
| SignalFoundryBundle.PricePathInjective | src/quant_platform/data/signal_foundry_contract.py:318 | Different years are written to different paths |
| SignalFoundryBundle.WritePartitions | src/quant_platform/data/signal_foundry_contract.py:314-330 | The year loop writes one file per year and never meets an existing path |
| SignalFoundryBundle.ReadEntries | src/quant_platform/data/signal_foundry_contract.py:451-501 | The file loop succeeds exactly when declared paths are distinct and safe and every file has its declared hash, schema and row count |
| SignalFoundryBundle.Validate | src/quant_platform/data/signal_foundry_contract.py:504-589 | Accepts exactly the valid bundles: identity, files, row totals, canonical frame, summary fields, record sets, and no undeclared file |
| SignalFoundryBundle.ContentsExact | src/quant_platform/data/signal_foundry_contract.py:504-589 | A valid bundle contains exactly the rows of its declared price files, as many as its manifest says and one per date and ticker, and exactly the records of its declared record files |
| SignalFoundryBundle.SummaryExact | src/quant_platform/data/signal_foundry_contract.py:545-560 | The manifest of a valid bundle states its first and its last day, and its tickers, each once and in order |
| SignalFoundryBundle.SafePathIff | src/quant_platform/data/signal_foundry_contract.py:504-589 | A path is safe exactly when it is not absolute and has no component .. |
| SignalFoundryBundle.NameDeterminesRecords | src/quant_platform/data/signal_foundry_contract.py:504-589 | Two valid bundles of one name have the same semantic manifest, the same Parquet files and the same contents; they are equal exactly when their created_at, other manifest keys and other files are |
| SignalFoundryBundle.ExtrasAreFree | src/quant_platform/data/signal_foundry_contract.py:504-589 | Those extras are fixed by nothing: a valid bundle stays valid, under its name and with its contents, with any other extras |
| SignalFoundryBundle.SameNameTwoBundles | src/quant_platform/data/signal_foundry_contract.py:392-394 | For every canonical view two different valid bundles of one name exist that differ in created_at alone |
| SignalFoundryBundle.Load | src/quant_platform/data/signal_foundry_contract.py:601-660 | Loads exactly the valid bundles. Without an as-of time everything is returned; with one, exactly the price rows effective and available by then, each as often as stored and in order, and of each record identity the last available of the revisions effective and available by then |
| SignalFoundryBundle.ExportRoundTrip | src/quant_platform/data/signal_foundry_contract.py:254-413 | For all coerced inputs the exported bundle validates, and loading it gives exactly those inputs |
| SignalFoundryBundle.ExportedFiles | src/quant_platform/data/signal_foundry_contract.py:314-345 | An export holds one price file for each year present, at its year's path and with that year's rows, and one file per record family unless it is empty |
| SignalFoundryBundle.PricePathText | src/quant_platform/data/signal_foundry_contract.py:318 | The path of a year is prices/year=, the year and /part-00000.parquet |
| SignalFoundryBundle.OfYearExact | src/quant_platform/data/signal_foundry_contract.py:316-317 | A year's partition holds exactly the rows of that year |
| SignalFoundryBundle.Publisher.Export | src/quant_platform/data/signal_foundry_contract.py:254-413 | Succeeds exactly when the inputs coerce, no stale staging is there and an existing bundle of that name is valid; then the bundle stored under the identity is valid, holds exactly these inputs and equals the exported one up to extras, an existing bundle being left as it was; a failure changes nothing. The final validation never fails |
| SignalFoundryBundle.ExportIsOrderFree | src/quant_platform/data/signal_foundry_contract.py:254-413 | Exporting the same price rows in another order gives the same bundle |
| SignalFoundryBundle.NameOrderFreeIff | src/quant_platform/data/signal_foundry_contract.py:254-413 | The bundle identity is the same for every order of price rows, memberships and actions exactly when no two memberships and no two actions tie in the canonical order |
| SignalFoundryBundle.OrderChangesName | src/quant_platform/data/signal_foundry_contract.py:254-413 | With any accepted panel there are two memberships whose two orders are exported under different identities, although every as-of view of them is the same |
| MemberScan.OverlapSuffices | scripts/verify_service_container.py:1285-1301 | The carried window loses no occurrence of the canary across a chunk boundary |
| MemberScan.ContainsIff | scripts/verify_service_container.py:1285-1286 | The canary occurs in a window exactly when the window is something, the canary and something |
| MemberScan.MemberBytes | scripts/verify_service_container.py:1269-1303 | For every split into chunks: the member is refused for the canary iff the canary occurs in the whole content; otherwise the digest is of the whole content, with its first 65536 bytes |
| MemberScan.EmptyCanary | scripts/verify_service_container.py:1269-1303 | An empty canary refuses every member of which a byte is read; an empty member of declared size zero is never searched and passes |
| JsonWalk.WalkStrings | scripts/verify_service_container.py:281-302 | The explicit stack returns exactly the strings of the recursive reading, keys included, iff every value is supported and the node count is within the ceiling |
| LinkTarget.Resolve | scripts/verify_service_container.py:1234-1266 | Accepted iff the spelling rules hold, no prefix of the parts leads above the root and the end lies below it; the result is that of skipping empty, dot and slash parts and dropping one part at each .., and each level of it is the component no later part climbs back above |
| ProtocolLine.ReadLine | scripts/benchmark_service_operability.py:1304-1334 | A returned line is a newline-terminated prefix of the stream with nothing read past it; a stream that is exactly one bounded line is always returned, however it is chunked |
| Publication.RunKeeps | scripts/benchmark_service_operability.py:1701-1810 | Every interleaving of create, write, link, read, compare, unlink and crash keeps the publication invariant |
| Publication.DestinationIsFinal | scripts/benchmark_service_operability.py:1766-1810 | The destination is complete from the moment it exists and never changes |
| Publication.SuccessIsOwnPayload | scripts/benchmark_service_operability.py:1766-1810 | A publisher that reports success has its own bytes at the destination, for good |
| Publication.OnePayloadSucceeds | scripts/benchmark_service_operability.py:1766-1810 | At most one distinct payload ever succeeds |
| Publication.NoTemporaryLeft | scripts/benchmark_service_operability.py:1766-1810 | Every finished publisher leaves no temporary file |
| Publication.AloneSucceeds | scripts/benchmark_service_operability.py:1766-1810 | With no destination yet a publisher nobody disturbs succeeds: its bytes stand there in one regular file of canonical mode with one name |
| Publication.FacingDecides | scripts/benchmark_service_operability.py:1701-1810 | With a destination there already an undisturbed publisher succeeds exactly when that is a regular file of canonical mode within 2 MiB with its own bytes; the file is left as it is and the temporary name is gone |
| Publication.OpenDecides | scripts/benchmark_service_operability.py:1701-1720 | Opening the existing destination goes on to read exactly regular files of canonical mode within 2 MiB |
| Publication.CompareWaits | scripts/benchmark_service_operability.py:1722-1738 | The comparison waits for the end of the file |
| Publication.FailureCleansUp | scripts/benchmark_service_operability.py:1766-1810 | Whatever fails on the way, the publisher reports failure, its temporary name goes and the destination is not touched |
| Publication.CrashLeaves | scripts/benchmark_service_operability.py:1766-1810 | A killed publisher leaves files, names and destination as they are |
| Publication.StatMovesIff | scripts/benchmark_service_operability.py:1701-1810 | In reachable states one step changes the file status of an existing destination exactly when it is the unlink of the temporary name that destination was linked from |
| Publication.RunMovesIff | scripts/benchmark_service_operability.py:1701-1810 | Over any events the status of an existing destination has changed exactly when the winner dropped its temporary name among them |
| Publication.CompareDecides | scripts/benchmark_service_operability.py:1701-1750 | A publisher that opened the existing destination and read all of it succeeds exactly when the destination holds its payload and the winner did not drop its temporary name since that open |
| Publication.EqualBytesRefused | scripts/benchmark_service_operability.py:1701-1810 | For every payload there is a run of two publishers of that payload in which the second is refused although its bytes are at the destination |
| Publication.ReadReachesEnd | scripts/benchmark_service_operability.py:1701-1750 | The bounded read can reach the end of every file within its limit |
| WeightProjection.Project | src/quant_platform/evaluation/scenario_lab.py:202-231 | Fails exactly when the caps cannot fund the book; otherwise the gross is 1, each position is within max_weight + 1e-12, nonnegative without shorting, and the order of the weights is kept. The result is the first iterate that settles, or the uniform book when none of the hundred rounds does; the final raise is unreachable |
| WeightProjection.StepExact | src/quant_platform/evaluation/scenario_lab.py:213-221 | One round clips every weight into the bounds and divides by the gross of the clipped row, or sets equal weights when nothing is left |
| WeightProjection.LongOnlyLoop | src/quant_platform/evaluation/scenario_lab.py:211-226 | Over all rounds of a long-only loop with some mass: no round after the first scales down, the set of capped assets only grows, and assets not capped keep their ratios |
| WeightProjection.SettlesIff | src/quant_platform/evaluation/scenario_lab.py:211-230 | Without the ceiling on rounds: from an input with some mass some round, however late, settles exactly when the assets that carry mass can hold a whole book inside the cap (with its tolerance) |
| WeightProjection.SettlesInTime | src/quant_platform/evaluation/scenario_lab.py:213-230 | With the ceiling: let the assets with mass be able to hold a book, and let theta be at least what fewer of them can hold at the cap short of a whole book. If after one clip and division every share reaches the cap in the fast rounds at growth 1/theta, and a clipping loss of 1 - theta shrunk by that loading over theta falls below the tolerance in the slow rounds, then for fast + slow + 2 <= 100 a round settles in time |
| WeightProjection.HalfCapSettles | src/quant_platform/evaluation/scenario_lab.py:213-230 | Under a cap of one half, two or more assets with a first share of at least one in ten thousand each settle within the hundred rounds |
| WeightProjection.SlowExample | src/quant_platform/evaluation/scenario_lab.py:202-231 | Three of four assets at the cap of 0.3333 and 1e-9 of the fourth: some round would settle, but none of the hundred does, and the uniform book is returned |
| WeightProjection.CrowdedFallsBack | src/quant_platform/evaluation/scenario_lab.py:226-230 | When they cannot, no round settles |
| WeightProjection.FallbackExample | src/quant_platform/evaluation/scenario_lab.py:202-231 | All the money on one of four assets, under a cap of nine tenths, is fundable and answered with the uniform book |
| WeightProjection.MaxAbsAttained | src/quant_platform/evaluation/scenario_lab.py:211-230 | The largest absolute weight bounds every weight and is attained |
| WeightProjection.RobustCvar | src/quant_platform/evaluation/scenario_lab.py:256-274 | From equal weights two hundred ascents, each the projection of the weights moved by a twentieth of their gradient; every iterate is feasible, and it fails exactly when the caps cannot fund the book |

## Left out

- Real I/O: DuckDB SQL, Parquet encoding, fsync, flock, HTTP, Git and subprocesses are atomic steps; a Parquet file reads back as the table written to it, and removing a directory is one step.
- Hashing and zlib internals: SHA-256 is injective and stands for its input; the decompressor is any object that meets zlib's contract.
- Floating point: prices, weights and returns are reals, a missing score is an option, and rounding, infinities and NaN are not modelled.
- Tie order of pandas' default sort: a parameter that may arrange equal scores in any way.
- Backfill: other plans in the same catalogue (every update names one plan), the worker limit and queue order of the pool (any schedule is allowed), the plan's count and name validators, and the materialised object's storage, which is one step with an arbitrary outcome.
- Backtest: a name outside the common columns keeps an empty column instead of being dropped; summaries, benchmarks and reports after the net returns.
- Case mapping of letters beyond ASCII, in tickers, provider columns and portable keys.
- ZIP member names: decoding and `_member_path` are parameters, and so is the CSV reader of RECORD; the agreement with Python's own zipfile view and compression ratios are not modelled.
- Fetch: the time-series branch (one page per ticker, no cursor), URL building and credential redaction; row checks of `_normalise` and `_validate_panel_scope` are one arbitrary acceptance rule, and an infinite Retry-After is excluded.
- Cache: the request stored in a manifest (one request directory is modelled, so it always agrees) and cached JSON that was edited by hand.
- Records and bundles: column typing and missing cells (the record types have none), the source-manifest fields beyond accepted or not, what created_at, other manifest keys and other files contain (they are one opaque part of a bundle), symbolic links inside a bundle, and a crash in the middle of an export.
- Container scan: the workstation-path pattern, whose matches are unbounded, and PurePosixPath's splitting of link targets.
- Publication: ownership and permission refusals count as failures of the publisher; directory syncing is a step that may fail.
- SettlesInTime: gives a sufficient condition for the hundred rounds and not an exact one; the exact one is that one of the first hundred iterates settles, which `Project` states.
- Projection: `max_weight` is positive, and the simulated returns behind each ascent direction are an arbitrary function.
- Configuration, data validation, promotion decisions, plots, timing, the command line and the web interface: threshold checks and plumbing that would add only easy members.
