# DFIP, modelled and proved in Dafny

DFIP reports on published campaign facts: publishers append immutable snapshots, readers see the
newest row of every grain, and everything on a page — trends, drilldowns, KPIs, drivers, anomalies, QA
findings — is arithmetic over those rows. This project models that logic and proves what the pages rely
on: that nothing is lost when facts are grouped, filtered, bucketed, ranked or cached; that the two KPI
backends agree; and where the program falls short of what it promises, exactly when.

`dafny verify dfyconfig.toml` checks every file. Each module follows a part of the program:

| module | follows |
|---|---|
| `Prelude`, `Ordering`, `Text` | optional values, sorting and string order, joined strings and how to split them |
| `Numbers`, `Facts` | `divide.py`; the fact record, NULL-skipping sums, and grouping by any key |
| `Store`, `PublishedHistory` | `publication_store.py`: publications, snapshots, pointers, and the newest-wins listing |
| `Cache`, `CacheInvariant`, `CacheAgreement`, `CacheService`, `CacheReads`, `CacheGuard`, `CachedIdentity`, `PointerTimes`, `Paging`, `Warming` | `publication_service.py`: the workbook cache, paged reads, background warms |
| `Limits` | `limits.py`: the two sliding-window limiters, and the handlers that check and then record |
| `Calendar`, `Buckets` | the Gregorian calendar and ISO weeks; buckets, windows and slices |
| `Drill`, `DrillLaws`, `Series`, `SeriesLaws`, `Shares`, `ShareLaws`, `PriorRows` | grouped reads, pairs, parent filters, breakdown series, ranked rows, their shares and prior values |
| `Kpis`, `Dax`, `KpiTable`, `KpiDictionary`, `CaseFolding`, `Ratios` | `kpis.py`, its compiler to DAX, the shipped table, the written dictionary of it, its names without regard to case, ratios of sums |
| `Metrics`, `Drivers`, `Insights`, `InsightList`, `InsightLaws`, `DriverCases`, `DimensionCases`, `Anomalies`, `AnomalyLaws` | `trends.py` metrics, `insights.py`, `anomalies.py` |
| `Qa`, `QaLaws`, `QaKeys` | `qa.py`: findings, when each is made, and the uniqueness of their keys |

## How it is modelled

- Classes whose methods change their fields are classes here (`InMemoryPublicationStore`,
  `AttemptLimiter`, `RateWindowLimiter`), and loops are methods with invariants. Each is proved equal
  to a function, and the laws are lemmas about the function.
- Concurrency is a transition system over atomic steps: `Cache.Step` interleaves publishes, purges,
  renames, evictions, warms, downloads and cached reads; `Warming.PoolStep` and `InlineStep` interleave
  requesting threads and workers; `Limits.AdmissionStep` interleaves handlers under a clock that does
  not go back. A warm's early exit on an artifact already cached is decided in the step that takes its
  fingerprint. A publish writes its snapshot, its record and its pointer one after the other without a
  lock (`publication_store.py:112-118`). Nothing reads the snapshot before the record is there, so the
  first two are the step `Publish`; the pointer's write is the step `Point`, which only the publication
  time sees. `Cache` takes that time from the newest record, and `PointerTimes` from the pointer.
- `Decimal` values are exact reals, and `quantize` is explicit: half up in KPIs and shares, half even in
  the anomaly score, which passes no rounding mode.
- A NULL measure is a key that is absent from a fact's `values`, so that a row is a count and a map, and
  rows form a commutative monoid. Count columns are whole numbers where a law needs it (`WholeCounts`),
  as the fact record's types say.
- A day is its proleptic ordinal. `Calendar` builds civil dates, month arithmetic and ISO weeks from it.
- Identifiers and publication times come from the caller; a new identifier is one never used before.
- DAX is a small syntax tree with an evaluator: `SUM`, `DIVIDE`, `IF`, `OR`, `ISBLANK`, `VAR` and measure
  references resolved by name, over BLANK. KPI ids are given by the last three digits of their UUIDs.
- What the functions compute is said again from outside them: the day number of a date in closed form, a
  rounding by the interval it comes from, a listing by the order of its columns, each KPI by the line of the written
  dictionary (`powerbi/model/kpi-mapping.md`), each threshold by its number.
- Every lemma switches automatic induction off, so that each induction is the one written down.

## Where the program falls short

Each entry names an input or a run that shows the fault, and the condition that decides it.

- A direct download reads the rows before the fingerprint: a publish between the two files old rows
  under the new fingerprint (`CacheGuard.RaceFromStart`, and from any world
  `CacheAgreement.DownloadRaceBreaks`). With publish times in order it is safe exactly when no create or
  purge of the client took effect since it began (`CacheGuard.GuardIsUndisturbed`).
- A company rename does not move the fingerprint (`CacheAgreement.RenameIsNotNoticed`). The name in a
  cached body is the one its company had where the request that filed it read it
  (`CachedIdentity.CachedIdentityWasRead`), and is the present one exactly when the last rename since, if
  any, gives that same name (`CachedIdentity.CachedNameIsPresent`).
- A warm between a publish's record and its pointer files the old publication time under the new
  fingerprint (`PointerTimes.LateTimeFromStart`). The rows are right all the same, and the time is right
  exactly when the pointer gave the newest time where it was read (`PointerTimes.FiledTimeIsCurrent`).
- A purge between two pages of a snapshot is taken for its end (`Paging.PurgeTruncates`). The read is
  complete exactly when no purge of that client comes before a page that is due (`Paging.PagedReadOfRun`).
- A `submit` that raises leaves its client marked as warming for good (`Warming.RaisedSubmitStarves`); a
  client's mark means one warm exactly when none of its own has (`Warming.SingleFlight`). Without an
  executor the two discards let two warms of one client overlap (`Warming.OverlapIsReachable`,
  `Warming.DoubleDiscardBreaks`). For each client the mark is right exactly when no caller's second
  discard comes while another's warm of it runs (`Warming.InlineSingleFlight`), and its warms are exclusive
  exactly when its callers do not overlap (`Warming.InlineExclusive`).
- N handlers can pass the rate check before any of them records: the bound is max_attempts + N - 1
  (`Limits.AdmissionBound`), and it is reached (`Limits.AdmissionBoundIsReached`).
- Month labels keep two digits of the year (`Calendar.MonthLabelCollides` says exactly when two agree).
- Two measure names, and no others, differ only in case (`CaseFolding.OnlyTwinsCollide`). They have one
  definition, so every KPI still reads right under either (`CaseFolding.ShippedBackendsAgreeIgnoringCase`).
- With a dependent KPI whose parent is rounded the two backends would differ
  (`Dax.RoundedParentDisagrees`); the shipped table has none (`KpiTable.TableWellFormed`).
- A group whose facts are all NULL in one window hides its change (`DriverCases.NullHidesAChange`); the
  deltas add up exactly when such groups hide nothing in sum (`Drivers.DriversConserve`).
- Four or more even movers are never reported, with facts for every such number
  (`DriverCases.EvenMoversGoUnreported`); and a dimension that passes alone is lost when another has a
  larger first share and fails (`DimensionCases.AnotherDimensionHidesADriver`). For any dimensions, the
  two largest movers of the best one decide (`Insights.TwoLargestDecide`).
- The prior column of a drill table leaves out the groups that are gone (`PriorRows.VanishedGroupIsDropped`);
  it adds up to the prior total exactly when those sum to zero (`PriorRows.PriorsAddUp`).
- A kept value named `__other__` shares its series with what is folded: its rows are its own exactly when
  nothing is folded (`Series.KeptRowsAreOwn`).
- The median withstands altering a set of values exactly when it is fewer than half of them
  (`Anomalies.MedianWithstands`).
- QA keys leave out the client and do not escape their separator (`QaKeys.ClientIsNotInTheKey`,
  `QaKeys.BarsCollide`); all keys are distinct exactly when no two rejected rows share rule and row and no
  two facts share both their text and a fault (`QaKeys.FindingKeysDistinct`).

One disagreement between the code and its own text: the threshold catalogs of `insights.py:676` and
`anomalies.py:574` say that a change is divided by `max(|prior|, 1)` and `max(|median|, 1)`, while the code
at `insights.py:344` and `anomalies.py:236` divides by any nonzero value and by 1 only for zero. The model
follows the code.

## Model

| member | source | states |
|---|---|---|
| Numbers.QuantizeMonotone | packages/analytics/dfip_analytics/divide.py:27-40 | Rounding to a scale keeps order |
| Numbers.QuantizeNear | packages/analytics/dfip_analytics/divide.py:43-56 | Rounding to a scale moves a value by at most half a unit, for every value and sign |
| Numbers.QuantizeIdempotent | packages/analytics/dfip_analytics/divide.py:59-72 | A rounded value is a fixed point of rounding |
| Numbers.QuantizeIsHalfUp | packages/analytics/dfip_analytics/divide.py:27-40 | A value is the rounding of another if and only if it is the multiple of the unit whose half-open interval holds it: from half a unit below to half above, the end away from zero left out, on both sides of zero |
| Numbers.TiesGoAway | packages/analytics/dfip_analytics/divide.py:40 | A value halfway between two multiples goes to the one farther from zero, on both sides |
| Ordering.StringLeMeans | packages/api/dfip_api/publication_store.py:179-181 | The order of texts is: a prefix, or a smaller character at the first place they differ |
| Text.StrMeans | packages/api/dfip_api/publication_store.py:499-506 | A number's text is the digit for it below ten, and the text of its tens followed by its last digit above |
| Facts.SumMeasure | packages/analytics/dfip_analytics/aggregate.py:35-45 | The loop over facts gives the sum of the values that are there, and NULL exactly when none is |
| Facts.SummaryNull | packages/analytics/dfip_analytics/aggregate.py:48-50 | A sum is NULL exactly when every contributing value is NULL |
| Facts.SummaryMeans | packages/analytics/dfip_analytics/aggregate.py:53-68 | A row counts its facts and has, for each measure, the sum of the values that are there |
| Facts.PartitionSum | packages/analytics/dfip_analytics/aggregate.py:53-68 | Grouping facts by any key and adding the rows back gives the row of the whole, count and NULLs included |
| Facts.RollUp | packages/api/dfip_api/publication_store.py:423-475 | The row of a coarse group is the sum of the rows of the fine groups inside it |
| Facts.GroupFacts | packages/api/dfip_api/publication_store.py:375-421 | The grouping loop keeps first-appearance order and gives each key exactly its facts |
| Facts.FirstSeenInOrder | packages/api/dfip_api/publication_store.py:403-421 | Of two groups the earlier one has a fact before the later one has any |
| Store.CreateVersions | packages/api/dfip_api/publication_store.py:68-119 | A create appends one version to its client and changes no other client |
| Store.PurgeVersions | packages/api/dfip_api/publication_store.py:512-517 | A purge empties its client and changes no other client |
| Store.CreateValid | packages/api/dfip_api/publication_store.py:68-119 | Creation keeps the store valid: distinct ids, complete snapshots, and a pointer at each client's latest insertion |
| Store.PurgeValid | packages/api/dfip_api/publication_store.py:512-517 | Purging keeps the store valid |
| PublishedHistory.InMemoryPublicationStore.UniqueSnapshotRows | packages/api/dfip_api/publication_store.py:533-541 | Snapshot rows are accepted unchanged exactly when no grain repeats |
| PublishedHistory.InMemoryPublicationStore.CopyInChunks | packages/api/dfip_api/publication_store.py:108-112 | The chunked copy loses and repeats nothing, so the incomplete-snapshot check never fires |
| PublishedHistory.InMemoryPublicationStore.Create | packages/api/dfip_api/publication_store.py:68-119 | The whole new state of the store after a create; a repeated grain changes nothing |
| PublishedHistory.InMemoryPublicationStore.ListPublishedHistory | packages/api/dfip_api/publication_store.py:158-182 | The reversed first-seen scan gives one page of the client's newest-wins history, at most `limit` rows from `offset` on, by day, then campaign, then variation, and reports the history's size |
| PublishedHistory.InMemoryPublicationStore.ListSnapshot | packages/api/dfip_api/publication_store.py:142-156 | The filter loop pages the rows of the snapshot that are the client's, each as often as it occurs and no others, by day, then campaign, then variation, then client, and counts them |
| PublishedHistory.SnapshotListingUnique | packages/api/dfip_api/publication_store.py:142-156 | A snapshot with one row per grain has only one such listing |
| PublishedHistory.InMemoryPublicationStore.PurgeClient | packages/api/dfip_api/publication_store.py:512-517 | The whole new state of the store after a purge |
| PublishedHistory.HistoryRefines | packages/api/dfip_api/publication_store.py:158-182 | Newest wins: the listing has one row per grain, holds exactly the left-to-right override of the client's snapshots, and is ordered by day, then campaign, then variation |
| PublishedHistory.ListingsInOrder | packages/api/dfip_api/publication_store.py:153-155 | Of two rows of a history or of a snapshot the earlier has the earlier day; on one day the earlier campaign; on one campaign the earlier variation |
| PublishedHistory.FingerprintMeans | packages/api/dfip_api/publication_store.py:477-506 | There is a fingerprint exactly when there are rows; its parts are the number of publications, the greatest id, the latest time, the number of rows, the last day, and the number of months with a row |
| PublishedHistory.ListingUnique | packages/api/dfip_api/publication_store.py:158-182 | A history has only one such listing |
| PublishedHistory.CreateReplacesItsGrains | packages/api/dfip_api/publication_store.py:68-119 | A publish replaces exactly the grains it carries and leaves the rest |
| CacheAgreement.GuardedRunInv | packages/api/dfip_api/publication_service.py:649-744 | Every guarded run keeps the cache invariant, at every step of every running request |
| CacheAgreement.HitsAreCurrent | packages/api/dfip_api/publication_service.py:606-611 | After any guarded run, what is cached under a client's current fingerprint shows exactly its current newest-wins history and publication time |
| CacheService.FreshWorkbookIsServed | packages/api/dfip_api/publication_service.py:606-743 | A warm or a download that nothing disturbs leaves exactly the present workbook, and the next request is handed that: name, time and rows |
| CacheService.UnrenderableIsNotFiled | packages/api/dfip_api/publication_service.py:714-743 | A history with no row, or with more than 250000, ends the request where it reads the rows and changes nothing |
| CacheService.OtherEvents | packages/api/dfip_api/publication_service.py:657-664 | A cached artifact is not made again; an eviction takes its own artifact and no other; a dropped request leaves nothing behind |
| CacheService.MissedIsNotServed | packages/api/dfip_api/publication_service.py:606-616 | A read that finds nothing under the present fingerprint hands out nothing cached |
| CacheService.NamesAre | packages/api/dfip_api/publication_service.py:842-846 | A company goes by its code until it has a name, and by its last name then |
| CacheService.CurrentIsLatest | packages/api/dfip_api/publication_store.py:68-119 | After a publish its client has that version last and its time as the publication time |
| CacheAgreement.WarmsNeedNoGuard | packages/api/dfip_api/publication_service.py:649-679 | Warms take the fingerprint first and are safe under every interleaving with publishes, purges, renames and evictions |
| CacheAgreement.GuardIsExact | packages/api/dfip_api/publication_service.py:694-744 | When a download takes its fingerprint, the cache invariant survives if and only if the rows it rendered are still the client's |
| CacheAgreement.UndisturbedStaysCurrent | packages/api/dfip_api/publication_service.py:714-743 | No create or purge of the client between a download's reads is enough for that, from any world |
| CacheGuard.GuardIsUndisturbed | packages/api/dfip_api/publication_service.py:694-744 | In every run with ascending publish times, a download that takes its fingerprint has rendered the current history if and only if no create or purge of the client took effect since it began |
| CacheAgreement.DownloadRaceBreaks | packages/api/dfip_api/publication_service.py:714-743 | From any world, a publish of changed rows between a download's reads makes the next cached read serve the old rows |
| CacheGuard.RaceFromStart | packages/api/dfip_api/publication_service.py:714-743 | The race from an empty store, with two concrete publishes |
| CacheAgreement.RenameIsNotNoticed | packages/api/dfip_api/publication_service.py:842-846 | A rename leaves the fingerprint and the cached body as they are |
| CachedIdentity.CachedIdentityWasRead | packages/api/dfip_api/publication_service.py:694-743 | In every run, the name and publication time in a cached body are the ones its company had at the event where the request that filed it read them: the start of a download, or a warm's step after its fingerprint |
| CachedIdentity.CachedNameIsPresent | packages/api/dfip_api/publication_service.py:842-846 | In every run, the name in a cached body is the company's present one if and only if the last rename of the company since it was read, when there is one, gives that same name |
| PointerTimes.FiledTimeWasPointed | packages/api/dfip_api/publication_service.py:694-743 | With the pointer written last, the time filed with a body is the one the pointer gave where its request read it |
| PointerTimes.FiledTimeIsCurrent | packages/api/dfip_api/publication_store.py:112-118 | After any guarded run of publishes in two visible steps, what is cached under the current fingerprint has the current rows, and the newest publication's time if and only if the pointer gave the newest time where it was read |
| PointerTimes.PointSettles | packages/api/dfip_api/publication_store.py:118 | Once the pointer has moved to the newest publication, it gives that one's time |
| PointerTimes.LaggingTimeIsFiled | packages/api/dfip_api/publication_store.py:112-118 | After any run, a warm before the pointer's write files the time the pointer then gave, under the fingerprint that stays current after it |
| PointerTimes.LateTimeFromStart | packages/api/dfip_api/publication_store.py:112-118 | From an empty store: a second publish, its record written and its pointer not, gets the first one's time filed with its rows |
| CacheReads.TokenRecursOnlyUnchanged | packages/api/dfip_api/publication_store.py:477-506 | In every run, a fingerprint once seen can come back only while the client's publications are unchanged |
| CacheReads.FingerprintIdentifiesHistory | packages/api/dfip_api/publication_store.py:477-506 | At any two points of any run, equal fingerprints of a client mean equal histories, across purges and republications |
| CacheReads.ReadsAreNeverStale | packages/api/dfip_api/publication_service.py:606-611 | A cached read hands out a history that was current at some moment after it began, with anything between its two steps |
| Paging.LoadPublishedItems | packages/api/dfip_api/publication_service.py:848-874 | The paging loop, against a store that changes between pages, terminates with the pages' concatenation or the refusal |
| Paging.PagedReadIsPrefix | packages/api/dfip_api/publication_service.py:848-874 | Refuses a snapshot over the limit, otherwise gives a prefix of its sorted rows, and all of them if and only if the snapshot is still there at each page that is due |
| Paging.PagedReadOfRun | packages/api/dfip_api/publication_service.py:848-874 | For any run of creates and purges between pages, the read is complete if and only if no purge of the publication's own client comes before a page that is due |
| Paging.PagedReadExact | packages/api/dfip_api/publication_service.py:848-874 | With nothing but creates between pages it returns precisely the sorted snapshot, or refuses one over the limit |
| Paging.CreateKeeps | packages/api/dfip_api/publication_store.py:68-119 | A create changes no snapshot that exists, which is all a paged read needs |
| Paging.PurgeTruncates | packages/api/dfip_api/publication_service.py:863-874 | A purge after the first page makes it return that page as the whole |
| Paging.LoadCumulativeItems | packages/api/dfip_api/publication_service.py:819-840 | The cumulative loop terminates with the listing or the row-limit refusal |
| Paging.CumulativeIsOneMoment | packages/api/dfip_api/publication_service.py:819-840 | The cumulative read is the listing of one moment, however the store changes meanwhile |
| Paging.OverCapMatchesLoader | packages/api/dfip_api/publication_service.py:787-799 | The fingerprint's row count, parsed back from its text, refuses exactly when the loader would |
| Warming.SingleFlight | packages/api/dfip_api/publication_service.py:618-643 | In every interleaving a client has at most one warm; its mark means exactly one warm if and only if no submit of its own has raised; after one has, it is marked with none |
| Warming.RequestLeavesOneWarm | packages/api/dfip_api/publication_service.py:632-643 | After a request exactly one warm of the client exists, new or in flight, if and only if no submit of its own has raised |
| Warming.RaisedSubmitStarves | packages/api/dfip_api/publication_service.py:632-643 | After a submit that raises, no warm of the client ever exists again, and it stays marked |
| Warming.InlineSingleFlight | packages/api/dfip_api/publication_service.py:635-641 | Without an executor, for every run and client: the client is marked exactly while one warm of it runs, throughout, if and only if no second discard of one caller comes while another's warm of that client is running |
| Warming.InlineExclusive | packages/api/dfip_api/publication_service.py:635-641 | For every run and client: its warms never overlap and its mark is right, throughout, if and only if no caller asks for that client while another is between its discards |
| Warming.DoubleDiscardBreaks | packages/api/dfip_api/publication_service.py:677-679 | Overlapping inline callers do: the second discard releases another caller's mark |
| Warming.OverlapIsReachable | packages/api/dfip_api/publication_service.py:635-641 | The state this needs is two steps from the start |
| Limits.AttemptLimiter.IsBlocked | packages/api/dfip_api/limits.py:44-61 | Blocked exactly when, of some non-empty key, the events since its last clear and inside the window number max_failures or more; pruning changes no later answer |
| Limits.AttemptLimiter.RecordFailure | packages/api/dfip_api/limits.py:63-71 | Every key's events become those it had and one at the present time for each occurrence of it among the non-empty keys given |
| Limits.AttemptLimiter.Clear | packages/api/dfip_api/limits.py:73-76 | The keys given have no events any more, and every other key has those it had |
| Limits.RateWindowLimiter.IsBlocked | packages/api/dfip_api/limits.py:164-178 | Blocked exactly when the key's events inside the window number max_attempts or more |
| Limits.RateWindowLimiter.Record | packages/api/dfip_api/limits.py:180-187 | The key's events get one at the present time, unless it is empty; every other key has those it had |
| Limits.AdmissionBound | packages/api/dfip_api/auth_routes.py:507-511 | With N handlers that check and then record, every window in every run holds at most max_attempts + N - 1 opens; one handler never exceeds max_attempts |
| Limits.AdmissionBoundIsReached | packages/api/dfip_api/auth_routes.py:507-511 | For every N, limit and window, some run reaches that bound |
| Calendar.OrdinalOfFromOrdinal | packages/analytics/dfip_analytics/filters.py:78-82 | Civil dates and day numbers are inverse, one way |
| Calendar.FromOrdinalOfOrdinal | packages/analytics/dfip_analytics/filters.py:78-82 | And the other way |
| Calendar.MonthOfSpan | packages/analytics/dfip_analytics/filters.py:78-93 | The days from a month's first to the next month's first are exactly the days of that month |
| Calendar.OrdinalClosedForm | packages/analytics/dfip_analytics/filters.py:78-93 | The day number of every date in closed form: whole years and their leap days, (367m - 362) / 12 days of months, and the correction for February with the leap test written out |
| Calendar.DatesClosedForm | packages/analytics/dfip_analytics/filters.py:78-93 | A date exists exactly when its day is at least 1 and at most 30 or 31, as that form has it, or 28 or 29 in February |
| Calendar.IsoYearIsThursdayYear | packages/analytics/dfip_analytics/trends.py:122-128 | The week year of a label is the calendar year of the week's Thursday, as ISO 8601 defines it |
| Calendar.IsoRoundTrip | packages/analytics/dfip_analytics/trends.py:122-128 | A week year and number give their Monday back |
| Calendar.WeekLabelInjective | packages/analytics/dfip_analytics/trends.py:122-128 | Different Mondays have different week labels |
| Calendar.IsoFormatInjective | packages/analytics/dfip_analytics/trends.py:122-128 | Different days have different ISO dates |
| Calendar.IsoFormatReads | packages/analytics/dfip_analytics/trends.py:122-128 | An ISO date is four digits of the year, two of the month and two of the day with hyphens between, and reads back as those three numbers |
| Calendar.LabelsRead | packages/analytics/dfip_analytics/trends.py:122-128 | Week labels read back as year and two-digit week, month labels as three letters of the month's name and the year modulo 100 |
| Calendar.MonthLabelCollides | packages/core/dfip_core/transform/derive.py:35-37 | Month labels agree exactly when the months agree and the years agree modulo 100 |
| Buckets.NextBucket | packages/analytics/dfip_analytics/trends.py:138-146 | The loop's own step, month arithmetic included, is the bucket end of `drill.py` |
| Buckets.IterBuckets | packages/analytics/dfip_analytics/trends.py:131-148 | The loop lists the chain of buckets from the first day's to the last day's |
| Buckets.BucketIsOnCalendar | packages/analytics/dfip_analytics/trends.py:107-119 | A day's bucket: the day itself; the Monday at most six days before it; the first of its month. It ends a day, a week or a month later, across the end of a year |
| Buckets.BucketsTile | packages/analytics/dfip_analytics/trends.py:131-148 | That chain is strictly increasing, each bucket ends where the next begins, and it ends on the last day's bucket |
| Buckets.BucketListed | packages/analytics/dfip_analytics/trends.py:107-119 | Every day of the window has its bucket listed |
| Buckets.ListedSliceExists | packages/analytics/dfip_analytics/drill.py:161-172 | Intersecting the window with a listed bucket never fails |
| Buckets.SlicesPartition | packages/analytics/dfip_analytics/drill.py:151-172 | Every day of the window lies in the slice of exactly one listed bucket, its own |
| Buckets.SlicesAbut | packages/analytics/dfip_analytics/drill.py:161-172 | Slices stay in the window, cover it from end to end and abut |
| Buckets.PeriodIsSlice | packages/api/dfip_api/analytics_service.py:272-283 | The period shown for a bucket has the slice's bounds, last day included |
| Buckets.SlotsAreIndices | packages/api/dfip_api/analytics_service.py:312-323 | Day and week buckets get the slots 0, 1, 2 and so on |
| Buckets.SlotsIncrease | packages/api/dfip_api/analytics_service.py:312-323 | For every grain, months included, slots start at 0 and strictly increase, so that none overwrites another |
| Buckets.ResolveRefusesOutside | packages/analytics/dfip_analytics/drill.py:175-201 | A trend drill is accepted exactly when its bucket touches a day of the window, and never fails later in either window |
| Buckets.ResolvedSlicesAre | packages/analytics/dfip_analytics/drill.py:175-201 | What an accepted drill resolves to: the bucket's days inside the window, and, with a comparison, the days of the comparison's bucket at the same place in its list, or none when there is none |
| Drill.ListGroups | packages/api/dfip_api/publication_store.py:375-421 | Nothing for an unknown dimension name; otherwise the loop gives one row per value in first-appearance order with the label its last fact gave |
| Drill.GroupsConserve | packages/api/dfip_api/publication_store.py:375-421 | Group values are distinct and the rows add up to the window's row, NULLs and counts included |
| Drill.GroupsAreValues | packages/api/dfip_api/publication_store.py:375-421 | A value has a group exactly when some fact has the value |
| DrillLaws.ScopeMeans | packages/api/dfip_api/publication_store.py:396-404 | A scope holds exactly the facts of the window whose four columns pass their selections, a NULL reading as blank, each as often as it occurs |
| DrillLaws.GroupsMean | packages/api/dfip_api/publication_store.py:405-421 | A group is that of a column's text: it exists exactly when a fact has the text, and its row is the sum and the number of those facts |
| DrillLaws.TitleMeans | packages/api/dfip_api/publication_store.py:407-417 | The last fact of a group names it: a campaign by its name, anything else by its text, the blank as (blank) |
| DrillLaws.PairTitlesMean | packages/api/dfip_api/publication_store.py:449-462 | The last fact of a pair gives it both titles |
| DrillLaws.PairsMean | packages/api/dfip_api/publication_store.py:449-475 | A pair is that of its two texts, with the sum and number of the facts that have both, and there is at least one |
| DrillLaws.NamesMean | packages/api/dfip_api/publication_store.py:520-530 | The five dimension names and the columns they read |
| Drill.ListPairs | packages/api/dfip_api/publication_store.py:423-475 | The loop gives one row per pair of values in first-appearance order, with the two labels its last fact gave |
| Drill.PairsRollUp | packages/api/dfip_api/publication_store.py:423-475 | Pairs summed over the secondary dimension are the primary's group |
| Drill.ParseParents | packages/analytics/dfip_analytics/drill.py:94-107 | Too deep a path is refused first; otherwise the first parent at fault decides the error, a repeated dimension before Other; everything else is accepted unchanged |
| Drill.ApplyParentsLoop | packages/analytics/dfip_analytics/drill.py:135-148 | The loop over parents narrows the filters or refuses, as the function says |
| Drill.ApplyCharacterized | packages/analytics/dfip_analytics/drill.py:135-148 | For distinct dimensions: refused exactly when a value is outside its selection; otherwise each parent's selection is its value and the rest are untouched |
| DrillLaws.ParentNarrows | packages/analytics/dfip_analytics/drill.py:135-148 | One parent sets the selection of its own column to its value, and of no other; it is refused exactly when that column's selection is there without the value |
| Drill.ParentOrderIrrelevant | packages/analytics/dfip_analytics/drill.py:135-148 | The same parents in any order give the same filters or the same refusal |
| Drill.PathAccepted | packages/api/dfip_api/analytics_service.py:2279-2292 | A path is accepted exactly when one fact of the scope carries all its values |
| Drill.DrillTelescopes | packages/api/dfip_api/analytics_service.py:2279-2292 | Along an accepted path the filtered total is the row of that value one level up, blanks included |
| Series.ListPlainSeries | packages/api/dfip_api/publication_store.py:307-328 | The bucketing loop lists one row per bucket in date order |
| Series.ListBrokenSeries | packages/api/dfip_api/publication_store.py:329-373 | The ranking and folding loops list the cells of the breakdown |
| Series.BreakdownConserves | packages/api/dfip_api/publication_store.py:329-373 | For every cap, ranking measure and dimension, a bucket's series with Other add up to its unbroken row |
| Series.RebucketingAgrees | packages/api/dfip_api/publication_store.py:307-373 | The row a breakdown lists for a coarser bucket and a series is the sum of the day rows listed within it, Other included; an unlisted one covers none |
| Series.PlainRebucketingAgrees | packages/api/dfip_api/publication_store.py:307-328 | The same for the series without a breakdown |
| Series.AtMostCapSeries | packages/api/dfip_api/publication_store.py:329-373 | At most cap + 1 series appear |
| Series.KeptOutranksFolded | packages/api/dfip_api/publication_store.py:340-352 | Every kept value outranks every folded one, and values fold only beyond the cap |
| Series.KeptRowsAreOwn | packages/api/dfip_api/publication_store.py:353-373 | The rows listed under a kept value are those of its own facts, in every bucket, if and only if the value is not `__other__` or nothing is folded |
| SeriesLaws.SeriesInOrder | packages/api/dfip_api/publication_store.py:363-372 | Rows come by bucket and then by series key, none twice |
| SeriesLaws.PlainInOrder | packages/api/dfip_api/publication_store.py:315-318 | Without a breakdown buckets strictly increase |
| SeriesLaws.KeptMeans | packages/api/dfip_api/publication_store.py:344-352 | A kept value has the larger amount than a folded one; or the same, and the earlier title in lower case; or that too, and the earlier text |
| SeriesLaws.KeptHowMany | packages/api/dfip_api/publication_store.py:328-352 | As many values are kept as a positive limit asks for, eight without one, all when there are fewer |
| SeriesLaws.SeriesTitleMeans | packages/api/dfip_api/publication_store.py:355-362 | A series goes by its kept value's own last title, and is Other under `__other__` when folded |
| Shares.SharesAddUp | packages/api/dfip_api/analytics_service.py:2380-2382 | Rounded shares of all parts of a nonzero total add up to 1 within half a unit of 1e-6 per part |
| Shares.CombineMeasures | packages/api/dfip_api/analytics_service.py:2336-2343 | The nested loops give every measure's total over the groups, NULL read as zero |
| Shares.RankedRowsConserve | packages/api/dfip_api/analytics_service.py:2346-2422 | Kept rows and Other hold all rows and all volume; their shares add up to 1 within the rounding, or none has one when the volume is zero |
| Shares.ShownAreLargest | packages/api/dfip_api/analytics_service.py:2355-2364 | No folded group is larger than a shown one |
| ShareLaws.RowsAreRanked | packages/api/dfip_api/analytics_service.py:2354-2422 | The groups in rank order, each once: by amount, then title in lower case, then key. The first fifty are the rows, numbered from 1; the sum of the rest is one more, unnumbered |
| ShareLaws.RowShareIs | packages/api/dfip_api/analytics_service.py:2380-2382 | Each row's share is its amount over that of all groups, half up to six places; none has one exactly when that is zero |
| PriorRows.ListPriors | packages/api/dfip_api/analytics_service.py:2353-2402 | The lookups for the kept rows and the fold of the others give the prior column |
| PriorRows.PriorRowIs | packages/api/dfip_api/analytics_service.py:2365-2403 | The prior value of each numbered row is the sum over the prior facts of the row's own key, NULL when it has none |
| PriorRows.PriorsAddUp | packages/api/dfip_api/analytics_service.py:2353-2402 | For all windows, dimensions and additive measures, the prior column and the prior facts of vanished groups make up the prior total; the column alone does if and only if what vanished sums to zero |
| PriorRows.VanishedGroupIsDropped | packages/api/dfip_api/analytics_service.py:2353-2402 | Two windows in which the prior column shows 1 of 6 |
| Shares.BucketSharesAddUp | packages/api/dfip_api/analytics_service.py:519-536 | In each bucket the shares of the present points add up to 1 within the rounding unless the bucket's total is zero, when no point has one; a missing point never has |
| ShareLaws.BucketShareIs | packages/api/dfip_api/analytics_service.py:519-536 | A point's share is its amount over the present ones of its bucket, half up to six places; it has none exactly when it is missing or that is zero |
| Kpis.ComputeKpis | packages/analytics/dfip_analytics/kpis.py:749-787 | The loop over specifications in solve order, errors included, equals the recursive evaluation |
| Kpis.ComputeMeans | packages/analytics/dfip_analytics/kpis.py:732-787 | On a well-formed table it never fails and gives every KPI the value of its formula, dependent KPIs included |
| Kpis.KpiIsRounded | packages/analytics/dfip_analytics/kpis.py:732-787 | What is reported under each KPI of a well-formed table, said without the evaluator: the quotient half up to the KPI's places, none over zero; or the sum or difference, at the KPI's scale |
| Dax.CompiledMeans | packages/analytics/dfip_analytics/powerbi_contract.py:98-132 | For every well-formed table and all facts, compiled code evaluates to the formula, rounded as the KPI is |
| Dax.BackendsAgree | packages/analytics/dfip_analytics/powerbi_contract.py:84-132 | Reading a KPI's measure by its own name gives what `compute_kpis` returns, BLANK for NULL |
| Dax.NativeRatesRefused | packages/analytics/dfip_analytics/powerbi_contract.py:113-115 | One specification that reads a native rate makes the whole rendering fail, and `compute_kpis` of its namespace fail on every input |
| Dax.RoundedParentDisagrees | packages/analytics/dfip_analytics/kpis.py:732-746 | On a table with a rounded parent and one fact, `compute_kpis` reports 3.0003 where the rendered measures evaluate to 3 |
| KpiTable.TableWellFormed | packages/analytics/dfip_analytics/kpis.py:155-714 | The shipped table is well-formed: unique ids and slugs, no native rate, parents earlier in their namespace and unrounded |
| KpiTable.TableNamesDistinct | packages/analytics/dfip_analytics/powerbi_contract.py:84-91 | Its measure names, prefixed where display names repeat, are pairwise distinct and differ from the additive measures' |
| KpiTable.ShippedBackendsAgree | packages/analytics/dfip_analytics/powerbi_contract.py:460-485 | Every shipped KPI reads the same from the pasted measures as from `compute_kpis`, on all facts |
| KpiDictionary.QaRates | powerbi/model/kpi-mapping.md:29-34 | CTR, conversion rate, delivered rate and click-through conversion rate are the dictionary's quotients, half up to six places, none over zero |
| KpiDictionary.QaMoreRates | powerbi/model/kpi-mapping.md:37-44 | So are the view-through conversion rate, the impression rate and the two CTRs |
| KpiDictionary.QaCosts | powerbi/model/kpi-mapping.md:31-36 | ROAS and the costs per conversion are the dictionary's quotients, half up to four places |
| KpiDictionary.QaTotals | powerbi/model/kpi-mapping.md:38-39 | Click and view conversions, and their revenue, are the dictionary's sums |
| KpiDictionary.OnConversions | powerbi/model/kpi-mapping.md:40-41 | Cost and rate per click or view conversion are over the sum of the two, present exactly when that can be divided by |
| KpiDictionary.ClientRates | powerbi/model/kpi-mapping.md:50-53 | The delivery, impression and click rates of the client dictionary |
| KpiDictionary.ClientMoreRates | powerbi/model/kpi-mapping.md:56-62 | Its two conversion rates and its failed rate |
| KpiDictionary.ClientCosts | powerbi/model/kpi-mapping.md:54-57 | Its three costs per conversion |
| KpiDictionary.ClientRoas | powerbi/model/kpi-mapping.md:63-64 | Its two ROAS |
| KpiDictionary.ClientDifferences | powerbi/model/kpi-mapping.md:59-61 | Its three differences |
| KpiDictionary.AdditiveMeasures | powerbi/model/kpi-mapping.md:12-23 | Each of the twelve additive measures, read by its report name in the rendered model, is the sum of its column |
| CaseFolding.OnlyTwinsCollide | packages/analytics/dfip_analytics/kpis.py:393-465 | Without regard to case, exactly two shipped measure names are one, and none is an additive measure's |
| CaseFolding.ShippedBackendsAgreeIgnoringCase | packages/analytics/dfip_analytics/powerbi_contract.py:84-132 | Under case-insensitive names every shipped KPI, the two included, still reads what `compute_kpis` returns |
| Ratios.RatioOfSumsBounded | packages/analytics/dfip_analytics/kpis.py:732-787 | For any partition with non-NULL operands and positive denominators, every divide KPI of a well-formed table, dependent ones included, lies between the least and the greatest of the values computed for the groups |
| Ratios.LinearKpisAdd | packages/analytics/dfip_analytics/kpis.py:749-787 | Every add or subtract KPI of a well-formed table is, on the whole, the sum of the values computed for the groups, for present operands on the scale |
| Metrics.RatioMetricsDivide | packages/analytics/dfip_analytics/trends.py:70-93 | Each ratio metric, read through the shipped KPI table, is the rounded quotient of the two columns it names |
| QaLaws.MetricsAreColumns | packages/analytics/dfip_analytics/trends.py:70-93 | A metric that is a column goes by the column's name and is money or a count as the column is |
| InsightLaws.DeltaMeans | packages/analytics/dfip_analytics/insights.py:178-184 | The change of two values: exact, or for a count its whole part toward zero |
| InsightLaws.PickMeans | packages/analytics/dfip_analytics/insights.py:210-213 | What a metric reads of a window: the sum of its column, NULL when no fact has a value, or its KPI as `KpiDictionary` has it |
| InsightLaws.PctMeans | packages/analytics/dfip_analytics/insights.py:187-189 | The relative change is over the prior value: none exactly when that is zero, and else times the prior it is the difference, within half a millionth of the prior |
| InsightLaws.SnapshotMeans | packages/analytics/dfip_analytics/insights.py:233-267 | A change is there exactly when both values are and their denominators suffice; a snapshot is suppressed exactly when it is not, or the prior is zero |
| InsightLaws.MaterialMeans | packages/analytics/dfip_analytics/insights.py:270-277 | Materiality as a condition on the two values alone: both there over sufficient denominators, a prior that is not zero, a difference of 0.0999995 of it and of the kind's least change |
| InsightLaws.CategoryMeans | packages/analytics/dfip_analytics/insights.py:288-293 | A movement is a material change exactly from 0.2499995 of the prior on; below, it is positive for a rise, negative for a fall, and the other way round for cost |
| Drivers.ListDrivers | packages/analytics/dfip_analytics/insights.py:350-409 | Whatever order the key set is walked in, the sorted drivers are the same, one per key of either window |
| Drivers.ListSameSign | packages/analytics/dfip_analytics/insights.py:412-421 | The loop keeps, in order, the drivers that move with the total |
| Drivers.DriversConserve | packages/analytics/dfip_analytics/insights.py:350-409 | For groups of any two sets of facts: deltas plus the changes of all-NULL groups add up to the total change, contributions to the reported part within the rounding, and the deltas alone add up exactly when those groups hide nothing in sum |
| InsightLaws.DriverMeans | packages/analytics/dfip_analytics/insights.py:366-405 | What a driver says of its group, for all windows: the amounts and row counts of its facts, zero for no fact and NULL for NULL ones alone, their change, and its share of the total, half up |
| InsightLaws.DriverTitleMeans | packages/analytics/dfip_analytics/insights.py:366-396 | A driver has its group's present title, and the earlier one when the group is gone |
| InsightLaws.DriversInOrder | packages/analytics/dfip_analytics/insights.py:401-421 | Drivers come by size of share, then of change, then key from the last; those that count move the same way as the total |
| DriverCases.NullHidesAChange | packages/analytics/dfip_analytics/insights.py:371-384 | Facts on which a total change of 4 is reported as a delta of 9, the rest being hidden by an all-NULL group |
| Drivers.ContributionsAddUp | packages/analytics/dfip_analytics/insights.py:350-409 | When no group of either window is all NULL, the deltas add up to the total change and the rounded contributions to 1, within half a unit of 1e-6 per driver |
| Drivers.TopShare | packages/analytics/dfip_analytics/insights.py:412-421 | Some group moves with the total, and the first of n that do has a share of at least 1/n, rounded |
| Insights.FindDominantDriver | packages/analytics/dfip_analytics/insights.py:562-590 | The search over dimensions and the two share tests, as a function of the groupings |
| Insights.SomeGroupMoves | packages/analytics/dfip_analytics/insights.py:562-575 | A material change of an additive metric is shared by a group in every dimension that hides nothing, with a top share of at least 1/n |
| Insights.TwoMoversAreFound | packages/analytics/dfip_analytics/insights.py:562-615 | A material count with a dimension of two or more groups and at most two movers always gets a dominant driver, whatever the other dimensions hold |
| Insights.ThreeMoversAreFound | packages/analytics/dfip_analytics/insights.py:562-588 | Among any dimensions that hide nothing, one with two groups: a material count whose best dimension has at most three movers gets a driver |
| Insights.FloorDecides | packages/analytics/dfip_analytics/insights.py:424-427 | For money and counts alike, when the best of any dimensions has one or two movers there is a dominant driver exactly when the first mover's change reaches the floor |
| Insights.BestIsOffered | packages/analytics/dfip_analytics/insights.py:562-575 | The best dimension is one that is offered: no other has a larger first share, and no earlier one as large a share |
| Insights.TwoLargestDecide | packages/analytics/dfip_analytics/insights.py:562-588 | For every list of groupings, on all facts, for money and counts: a material change has a dominant driver if and only if some dimension is offered and the two largest movers of the best one pass |
| Insights.OneDimensionDecides | packages/analytics/dfip_analytics/insights.py:562-588 | In one dimension: if and only if it has two groups and its two largest movers pass |
| Insights.EvenMoversAreNotFound | packages/analytics/dfip_analytics/insights.py:579-588 | Four or more movers of one size that account for the change are never reported when theirs is the best dimension |
| DriverCases.EvenMoversGoUnreported | packages/analytics/dfip_analytics/insights.py:562-588 | Such facts exist for every number of movers from four on |
| DimensionCases.AnotherDimensionHidesADriver | packages/api/dfip_api/analytics_service.py:1312-1314 | Facts on which the campaigns alone give a dominant driver, and campaigns and channels together, the service's default, give none |
| InsightList.BuildInsights | packages/analytics/dfip_analytics/insights.py:506-658 | The loops over metrics and pairs list all drafts, ranked and cut to the limit |
| InsightLaws.DraftsAre | packages/analytics/dfip_analytics/insights.py:539-648 | The drafts are exactly the movement of each material metric, its dominant driver when there is one, and the pairs that move apart |
| InsightLaws.ScoreMeans | packages/analytics/dfip_analytics/insights.py:330-347 | The score is the program's own ranking text, number for number, but for what a change is divided by |
| InsightLaws.DriverDraftMeans | packages/analytics/dfip_analytics/insights.py:588-615 | A driver draft shows at most the first three movers of the best dimension and says how many there are of how many groups |
| InsightLaws.RelationshipMeans | packages/analytics/dfip_analytics/insights.py:616-648 | A relationship is drawn between revenue and ROAS, and deliveries and their rate, exactly when both move materially and one rises while the other falls |
| InsightLaws.RelationshipDraftMeans | packages/analytics/dfip_analytics/insights.py:625-647 | A relationship draft carries the first metric's change and scores by the larger of the two relative changes |
| InsightLaws.ListedAreRanked | packages/analytics/dfip_analytics/insights.py:649-658 | What is shown and what is cut are the drafts, each once; the shown ones come by score, relative change, metric, category and id, and before every one that is cut |
| InsightList.DriverIsListedWithItsChange | packages/analytics/dfip_analytics/insights.py:330-347 | No limit cuts off the dominant-driver draft of a change whose movement draft it shows |
| Anomalies.FindAnomaly | packages/analytics/dfip_analytics/anomalies.py:450-486 | The loop over baseline months collects the observable values and classifies the current one |
| AnomalyLaws.MedianMeans | packages/analytics/dfip_analytics/anomalies.py:178-186 | The median is the value that half of the others precede, or halfway between the two that are in the middle |
| AnomalyLaws.SpreadMeans | packages/analytics/dfip_analytics/anomalies.py:189-190 | The spread is the median of the distances from the median |
| AnomalyLaws.HalfEvenMeans | packages/analytics/dfip_analytics/anomalies.py:301-302 | The score is rounded to the nearest, and to the even one on a tie |
| AnomalyLaws.ClassifyMeans | packages/analytics/dfip_analytics/anomalies.py:266-324 | Exactly which months are anomalous, of the numbers alone: the least change, and either 3.49995 spreads of a wide enough spread, or a jump beyond every baseline month by half of the median; the score is the nearest ten-thousandth, even on a tie |
| AnomalyLaws.AnomalyNeeds | packages/analytics/dfip_analytics/anomalies.py:450-486 | Exactly which months are looked at: the month and three others observed, over sufficient denominators |
| AnomalyLaws.ObservedAre | packages/analytics/dfip_analytics/anomalies.py:220-224 | The baseline is the values of the months that have one over a sufficient denominator, in order |
| AnomalyLaws.SeverityMeans | packages/analytics/dfip_analytics/anomalies.py:227-246 | Severity in points: 40, 30 and 10 in proportion, each up to three times, 15 for leaving the baseline, 100 at most; high from 75, medium from 50 |
| Anomalies.MedianIsRobust | packages/analytics/dfip_analytics/anomalies.py:178-186 | Altering fewer than half of the values leaves the median between two unaltered ones |
| Anomalies.MedianWithstands | packages/analytics/dfip_analytics/anomalies.py:178-186 | For every baseline, altering a set of its values leaves the median within bounds if and only if the set is fewer than half |
| Anomalies.MajoritySetsTheMedian | packages/analytics/dfip_analytics/anomalies.py:178-186 | Altering more than half puts the median at any value |
| Anomalies.ClassifyOfPermutation | packages/analytics/dfip_analytics/anomalies.py:266-324 | The verdict does not depend on the order of the baseline |
| Anomalies.AnomalyOfPermutation | packages/analytics/dfip_analytics/anomalies.py:450-486 | Nor does a month's anomaly depend on the order of the months before it |
| Anomalies.DirectionIsSign | packages/analytics/dfip_analytics/anomalies.py:266-324 | Direction is the sign of current minus median, which is never zero, and agrees with the truncated change and the rounded z |
| Anomalies.AnomalySeverity | packages/analytics/dfip_analytics/anomalies.py:227-246 | Severity lies in 0..100; a rolling deviation scores at least 40, a sudden change at least 15, or 45 when it is no rate |
| Qa.EvaluateQa | packages/analytics/dfip_analytics/qa.py:217-451 | The nested loops produce the findings of all checks, in order |
| QaLaws.FindingsAre | packages/analytics/dfip_analytics/qa.py:217-451 | The findings of a run are exactly: each mapped reject and one for all, the faults of each fact, a failed run, a failed reconciliation, facts not current, and each QA ratio over zero |
| QaLaws.RecordFaults | packages/analytics/dfip_analytics/qa.py:260-314 | A fact is reported, under its own key, exactly for a blank campaign, a missing day, a malformed client, run or batch, or a client that is not the expected one |
| QaLaws.MeasureFaults | packages/analytics/dfip_analytics/qa.py:315-362 | A measure is reported exactly when it is there and negative, deliveries and failures exactly when they exceed the sent |
| QaLaws.RatioFaults | packages/analytics/dfip_analytics/qa.py:363-386 | A pair is reported exactly when it is one of the five watched, both are there and the first exceeds the second |
| QaLaws.ReasonsAre | packages/analytics/dfip_analytics/qa.py:42-49 | The rule each reject reason stands for |
| QaLaws.SumsAre | packages/analytics/dfip_analytics/aggregate.py:35-45 | The sums over a run's facts are those of the values that are there, NULL for none |
| QaLaws.MoneyColumns | packages/analytics/dfip_analytics/qa.py:25-40 | Money columns are those in rupees and the total cost, and every other measure is a count |
| Qa.AssertUnique | packages/analytics/dfip_analytics/qa.py:89-97 | Accepts exactly the lists with pairwise distinct keys, and otherwise names the first repeat |
| QaKeys.FactTextInjective | packages/analytics/dfip_analytics/qa.py:176-178 | With a free separator, equal fact keys mean the same campaign, variation and day |
| QaKeys.FindingKeysDistinct | packages/analytics/dfip_analytics/qa.py:217-451 | For every run, all keys are distinct if and only if no two rejected rows share a rule and a row and no two facts share their text and a fault |
| QaKeys.CleanFindingKeysDistinct | packages/analytics/dfip_analytics/qa.py:217-451 | For facts of distinct campaign, variation and day with a free separator, that leaves the rejected rows alone |
| QaKeys.ClientIsNotInTheKey | packages/analytics/dfip_analytics/qa.py:176-178 | Two foreign clients' facts of one grain collide |
| QaKeys.BarsCollide | packages/analytics/dfip_analytics/qa.py:176-178 | With a bar in both parts, different grains collide |

## Left out

- Routes, schemas, authorization, company lifecycle, Excel grants, demo data and sessions: shallow guards and plumbing.
- The PostgreSQL stores, row-level security, migrations and backups: the in-memory store is the one modelled.
- Workbook and CSV rendering: a cached body is the name, publication time and rows it was made from.
- The artifact cache's files: an abstract map from client and fingerprint to body, with evictions at any time; the file name's hash is taken to be injective.
- The 28-digit context of Decimal and the last year of the calendar: arithmetic is exact and dates are unbounded above.
- Clock reads outside the lock in `limits.py`: each limiter method is one atomic step under a clock that does not go back.
- Progress callbacks of `create`, the fields that no read uses (period, scope, notes), and snapshots not marked complete, which this store never makes.
- `resolve_period` and `resolve_comparison` of `filters.py`, and the parsers of filters, metrics and limits: allowlist branches.
- Headlines, explanations, threshold texts and diagnostics: string formatting.
- `aggregate_facts`' sort of its output rows, and `verdict_from_findings`: easy members beside the laws above.
- `build_group_drivers` of `anomalies.py`, and the ordering of anomaly drafts: drivers against medians do not add up to the whole, so no conservation law holds of them.
- The layout of the DAX text, the context and health measures: the compiler is modelled down to the expression tree and the measure names.
- Ask, LLM calls, and number checking: no clean specification.
- CacheAgreement.HitsAreCurrent: agreement is on rows and on the newest publication's time; the name is in `CachedIdentity.CachedNameIsPresent`, and the time read through the pointer in `PointerTimes.FiledTimeIsCurrent`.
- Kpis.ComputeKpis: one namespace at a time, as every caller modelled here asks; the check of input names has nothing to refuse, since measures are an enumeration.
- CacheReads.FingerprintIdentifiesHistory: keeps the latest publication time as a value instead of its ISO text.
- Shares.RankedRowsConserve: a row's counts, sums and share; its prior values are in `PriorRows`, for additive metrics, and its deltas are not modelled.
- Qa.EvaluateQa: the UUID test is a free predicate on non-empty strings, and a finding is its key without its texts.
- Insights.TwoMoversAreFound: stated for counts, whose movers always reach the floor of 1; for money `Insights.FloorDecides` gives the condition.
