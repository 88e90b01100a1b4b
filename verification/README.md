# Quality-inspection defect log: a Dafny model of its data logic

The application records defect inspections on a pressure-sensor line.

- **Input form.** An operator picks a model, a process and the header options, and enters the batch's inspected quantity. They then build a list of defect lines, or press "no defect" (불량없음). Submitting writes one record per line. All the records of one submission share a fresh batch identifier and the batch's inspected quantity.
- **Dashboard.** It filters the live record set by group, model, process, range, version, temperature equipment and a time window. It folds the surviving records into per-process statistics: faults, inspected units (counted once per (process, batch) pair), a per-type breakdown, and defect rates with two decimals.
- **Record list.** It has its own filter: hide no-defect rows, plus a work-date range.
- **Backups.** A backup can be restored by writing every record again with fresh store fields.

The model covers this logic as pure functions over immutable datatypes. The clock, the store and the browser are passed in as parameters.

| file | module | what it holds |
|---|---|---|
| `text.dfy` | `Text` | `trim` and `includes` on strings |
| `config.dfy` | `Config` | the configuration table and the model-to-group derivation |
| `records.dfy` | `Records` | the record payload, the stored-field rule and the batch key |
| `seqs.dfy` | `Seqs` | order-preserving filter, subsequences and keyed sums |
| `submission.dfy` | `Submission` | the form's model effect, "no defect", add line, final submit |
| `dashboard.dfy` | `Dashboard` | the dashboard filter |
| `aggregation.dfy` | `Aggregation` | the statistics fold and record-by-record reference definitions, proved equal |
| `rates.dfy` | `Rates` | rates in exact hundredths of a percent, and their two-decimal text |
| `report.dfy` | `Report` | the rows the dashboard shows, and two worked figures |
| `datalist.dfy` | `ListView` | the record list's filter |
| `restore.dfy` | `Restore` | the backup restore |
| `pipeline.dfy` | `Pipeline` | from one submission to the dashboard's statistics |

Modelling choices:

- **Dates** are day numbers. A record's date field is `Missing` (older records without the key), `Blank` (a cleared input) or `On(day)`. The list filter compares ISO strings, and those two absent forms compare differently there.
- **Window starts** (today, a week ago, the first of the month, quarter and year) are one parameter record.
- **The batch identifier** of a submission is a parameter. It is fresh: no older record shares its key.
- **Store fields.** The store's identifier, server timestamp and sort key are a `Stamp` per written record.
- **Snapshot order.** The snapshot lists the newest records first (App.jsx:553-555). A committed submission is therefore modelled as its records placed before the older ones. The records of one submission are written concurrently (App.jsx:196), so their order among themselves follows the store's timestamps and is not fixed. Where that order matters (a no-defect record next to a real record of its batch), both orders are proved. The restore writes its items one at a time (App.jsx:573-577), so the snapshot lists them back to front.
- **The dedup key** is the pair (process, batchId) rather than the joined string `process_batchId`. `Records.KeyStringInjective` shows that the two agree whenever batch identifiers carry no underscore. `Records.KeyStringCollides` shows that they differ otherwise.
- **Rates** are natural numbers of hundredths of a percent, rounded half up: 5.00% is 500.

## Model

| member | source | states |
|---|---|---|
| Config.DeriveGroup | App.jsx:148 | a model belongs to IGS exactly when the IGS model list contains it, and to PT/UPT otherwise |
| Config.LegacyGroup | App.jsx:313 | a record without a stored group is IGS exactly when its model is UPT900, and PT/UPT otherwise |
| Config.DerivationsAgree | App.jsx:148 | the form's derivation and the dashboard's fallback give the same group for every model |
| Config.ConfiguredModelsDeriveTheirGroup | App.jsx:87-121 | every model in the configuration table derives the group it is listed under |
| Submission.ApplyModel | App.jsx:147-159 | after a model change, the group matches the model; process, range, connection type, sensor thickness, version, temperature and aging equipment are each the first option the group's configuration offers; the defect list is empty; every other field is kept |
| Submission.SelectModel | App.jsx:147-159 | choosing the current model again leaves the form unchanged; choosing another model sets it, derives its group, resets process, range, connection type, sensor thickness, version, temperature and aging equipment to the group's first options, empties the defect list, and keeps every other field, the defect pickers included |
| Submission.InitialForm | App.jsx:125-159 | the form starts on PT850 in PT/UPT with an empty list and no valid inspected quantity |
| Submission.MarkNoDefect | App.jsx:161-168 | "no defect" is refused exactly when the inspected quantity is not a positive integer; otherwise the list becomes the single no-defect line and nothing else changes |
| Submission.MarkNoDefectIsExclusive | App.jsx:167 | the list "no defect" leaves never mixes the sentinel with real lines |
| Submission.ChosenType | App.jsx:171-172 | a selected button's type is the line's type; with none selected the type is the custom text with its leading and trailing white space removed, which is empty exactly when that text is all white space |
| Submission.AddToList | App.jsx:170-176 | an empty type changes nothing; otherwise the new line is appended to the list the handler read (the clearing is lost), the pickers reset, a blank quantity counts as 1, and every header field is unchanged |
| Submission.AddToListKeepsNoDefectLine | App.jsx:173-174 | after "no defect", adding "칩긁힘" leaves both the sentinel and the defect line, so the list is not exclusive |
| Submission.WithoutNoDefect | App.jsx:173 | the clearing step as intended removes exactly the no-defect lines: the result is a subsequence of the list with no no-defect line, and its length plus the number of no-defect lines is the list's length, so every other line stays, repeats included, in order |
| Submission.AddToListExclusive | App.jsx:170-176 | the intended add drops any no-defect line before appending the new one, and every header field is unchanged |
| Submission.AddToListExclusiveKeepsExclusive | App.jsx:173-174 | the intended add keeps an exclusive list exclusive, unless the typed type is the sentinel text itself |
| Submission.Expand | App.jsx:187-195 | one record per list line, in list order, all sharing the header, the batch identifier and the inspected quantity |
| Submission.ExpandCarriesHeader | App.jsx:188-194 | every record carries the form's header; version, temperature and aging equipment are non-empty only when the process name contains 와이어본딩, 온도보상 or 에이징 respectively, and then hold the form's values |
| Submission.FinalSubmit | App.jsx:178-200 | submission is refused exactly when the operator is blank after trimming, the list is empty, or the quantity is not a positive integer; otherwise it sends one request per line, and it resets the list, quantity, remark and operator only when every write succeeded |
| Submission.SubmissionIsOneBatch | App.jsx:185-194 | the requests of one submission are non-empty, share the key (process, batchId) and a positive inspected quantity, and, when the form's group matches its model, store the group their model derives |
| Records.Kept | App.jsx:189-191 | an optional field is written non-empty only when the process carries its marker, and then it holds the form's value |
| Records.StoredFieldsAreShown | App.jsx:236-243 | outside IGS aging, every optional field a record keeps was offered on the form |
| Records.FormAndRecordRulesDisagree | App.jsx:189-191 | the form shows a version picker for PT/UPT "5.1차 헬륨" but the record drops it, and IGS "13.에이징검사" keeps an aging equipment the form never showed |
| Records.KeyStringInjective | App.jsx:332 | with no underscore in batch identifiers, the joined key string identifies the (process, batch) pair, both ways |
| Records.KeyStringCollides | App.jsx:332 | with an underscore in a batch identifier, two different pairs share one joined key |
| Text.Trim | App.jsx:171 | the trimmed text is empty exactly when the input is all white space; otherwise it neither starts nor ends with white space; it is the input with an all-white-space prefix and suffix removed |
| Text.TrimUnique | App.jsx:171 | any piece of the input left after removing an all-white-space prefix and suffix, and neither starting nor ending with white space, is the trimmed text |
| Text.ContainsIffOccurs | App.jsx:189-191 | the substring search is true exactly when the marker occurs at some position |
| Dashboard.EffectiveGroup | App.jsx:313 | a stored group is used as is; an absent one is IGS exactly when the model is UPT900, and it agrees with the form's derivation |
| Dashboard.FilteredData | App.jsx:298-322 | the result is a subsequence of the records; a record is in it exactly when it satisfies every non-"all" constraint and the time window |
| Dashboard.NoFiltersKeepEverything | App.jsx:309-321 | with every constraint "all" and no window, all records are kept in order |
| Dashboard.Select | App.jsx:314-319 | setting one constraint changes that constraint only |
| Dashboard.SelectAdmits | App.jsx:314-319 | setting a constraint that was "all" admits exactly the previously admitted records whose field has the chosen value |
| Dashboard.NarrowingNeverEnlarges | App.jsx:312-321 | setting one constraint from "all" to a value keeps exactly the earlier result's records with that value, so the result never grows |
| Dashboard.PeriodNarrowingNeverEnlarges | App.jsx:304-309 | choosing a time window instead of all time never enlarges the result |
| Dashboard.LegacyRecordJudgedByModel | App.jsx:313-314 | a record without a group passes a group constraint exactly when its model derives that group and the other constraints pass |
| Dashboard.StartDateDecidesWindow | App.jsx:303-304 | a record is placed by its work start date when it has one, so a record worked yesterday is outside today's window |
| Aggregation.AggregateKeys | App.jsx:330-342 | the fold's process map holds exactly the processes met, its seen set holds exactly the batch keys met, and its order lists each process once |
| Aggregation.AggregateOrder | App.jsx:333 | processes are listed in the order they are first met |
| Aggregation.AggregateFaults | App.jsx:335-338 | a process's faults and the total are the quantities of its defect records; no-defect records add nothing |
| Aggregation.AbsentProcessHasNoFaults | App.jsx:333 | a process never met has no faults, no inspected units and no breakdown |
| Aggregation.AggregateBreakdown | App.jsx:339 | each breakdown has a key for exactly the real defect types met for the process, holding that type's faults; the no-defect marker never gets a key |
| Aggregation.AggregateInspected | App.jsx:341-346 | a process's inspected count and the total add the batch quantity of the first record of each (process, batch) pair only |
| Aggregation.AggregateSums | App.jsx:335-346 | each breakdown sums to its process's faults, and the total faults and inspected units are the sums over the listed processes |
| Aggregation.StepBreakdowns | App.jsx:335-340 | one record keeps every breakdown listing its types once and summing to its faults |
| Aggregation.NewBatchCountedOnce | App.jsx:341-346 | a new batch of k lines adds its quantity once, not k times, to its process and to the total, leaves other processes alone, and adds its lines' faults |
| Aggregation.NewBatchFirst | App.jsx:341-346 | the same holds for a new batch listed before older records, as the newest are |
| Aggregation.NewBatchInAggregate | App.jsx:330-346 | the fold's counts for a new batch's process and its totals grow by the batch quantity once and by its lines' faults |
| Aggregation.AggregateReadsOnlyEntries | App.jsx:330-346 | records with the same payloads give the same statistics, whatever their identifiers, timestamps and owners |
| Aggregation.NoDefectAbsorbed | App.jsx:335-346 | a no-defect record followed by a record of its batch leaves the same state as that record alone |
| Aggregation.NoDefectLineHarmless | App.jsx:335-346 | a no-defect record placed just before a record of its batch changes no statistic |
| Aggregation.StepSeenNoDefect | App.jsx:335-346 | a no-defect record of a batch already counted leaves the fold's state unchanged |
| Aggregation.NoDefectAfterBatchRecord | App.jsx:335-346 | a no-defect record right after a record of its batch leaves the state that record left |
| Aggregation.NoDefectAfterItsBatch | App.jsx:335-346 | a no-defect record anywhere after a record of its batch changes no statistic |
| Aggregation.ReferenceReadsOnlyEntries | App.jsx:330-346 | the per-process faults, inspected counts, types and per-type faults depend on the records' payloads only |
| Aggregation.ReferenceAppend | App.jsx:330-340 | processes met, batch keys, faults and per-type faults of two record lists joined are those of each list combined |
| Aggregation.InspectedOfLeading | App.jsx:341-346 | when every record of a batch carries one inspected quantity, a record placed first adds its batch quantity to its process and to the total exactly when no later record has its batch key |
| Aggregation.ReversedCounts | App.jsx:330-346 | listing the records back to front keeps the processes met, each process's faults, inspected count, types and per-type faults, and the totals, as long as each batch carries one inspected quantity |
| Rates.Rate | App.jsx:351 | the rate is 0 without inspected units; otherwise it is the hundredth of a percent nearest faults / inspected × 100, ties up |
| Rates.RateIsUnique | App.jsx:351 | no other hundredth meets the rounding bracket |
| Rates.RateAtMostHundredPercent | App.jsx:351 | no more faults than inspected units gives at most 100.00% |
| Rates.RateMonotone | App.jsx:355 | more faults over the same inspected count never lower the rate |
| Rates.Decimal | App.jsx:359 | the integer part is printed as digits without leading zeros |
| Rates.DecimalRoundTrip | App.jsx:359 | the printed integer part reads back as the number |
| Rates.Fixed2 | App.jsx:359 | a rate prints as digits, a point and exactly two decimals, with no leading zero before a longer integer part |
| Rates.Fixed2RoundTrip | App.jsx:359 | the two-decimal text reads back as the rate it prints |
| Rates.DefectRateText | App.jsx:359 | the overall rate text is "0.00" with nothing inspected, and otherwise the two-decimal text, without a leading zero in a longer integer part, denoting the rate |
| Rates.RateExamples | App.jsx:351 | 5 of 100 is 5.00%, 3 of 100 is 3.00%, 2 of 100 is 2.00%, 4 of 130 is 3.08% |
| Report.StatsOf | App.jsx:324-360 | the rows name exactly the processes met, once each, in order of first appearance, including processes with only no-defect records; the totals are all faults and all batch quantities counted once; the overall rate text denotes their rate |
| Report.StatsRates | App.jsx:349-351 | each process row's rate is that process's faults over its inspected count |
| Report.StatsBreakdowns | App.jsx:352-356 | a process's breakdown lists exactly its real defect types, once each, with their faults and rates |
| Report.BreakdownAddsUpToFaults | App.jsx:335-340 | a process's breakdown values add up to its fault count |
| Report.ProcessFaultsAddUpToTotal | App.jsx:337-338 | the per-process fault counts add up to the total faults |
| Report.OneBatchTwoLines | App.jsx:324-359 | one batch of 100 with 3 + 2 faults shows 5.00%, 3.00% and 2.00%, with 100 inspected |
| Report.CleanBatchCountsInspected | App.jsx:324-359 | a clean batch of 50 and a batch of 80 with 4 faults shows 4 over 130 (3.08%), with no breakdown row for the clean batch |
| ListView.DisplayedData | App.jsx:450-457 | the list shows a subsequence of the records, exactly those passing the switch and both date bounds; blank start dates are hidden by a start bound, and missing dates are never hidden |
| ListView.ClearedFiltersShowAll | App.jsx:450-457 | with every control cleared, the list shows every record |
| ListView.HideNormalRemovesOnlyNoDefect | App.jsx:452 | hiding no-defect rows removes exactly those rows and keeps the rest in order |
| ListView.MissingDatesAlwaysShown | App.jsx:453-454 | a record without date fields is shown under any date range |
| ListView.BlankStartHiddenByStartBound | App.jsx:453 | a blank start date is hidden as soon as a start bound is set |
| ListView.TighterRangeShowsFewer | App.jsx:451-455 | tightening a bound or turning the switch on never shows more rows |
| Restore.RestoreKeepsStats | App.jsx:573-577 | the restored records, listed in file order, give the same statistics as the backed-up ones |
| Restore.RestoredSnapshotKeepsCounts | App.jsx:573-577 | the restored records as the snapshot lists them, back to front, give every process the same faults, inspected count and per-type faults, and the same totals and overall rate, when each batch carries one inspected quantity |
| Restore.RestoredRowsKeepRates | App.jsx:573-577 | in that order the dashboard lists the same processes, each with the rate it had |
| Restore.RestoreKeepsListRows | App.jsx:573-577 | the list shows a restored record exactly when it showed the original |
| Restore.RestoreKeepsDatedRecords | App.jsx:573-577 | the dashboard admits a restored record exactly when it admitted the original, when the record has a start date or no window is chosen |
| Restore.RestoreMovesUndatedRecord | App.jsx:576 | an old record without a start date, once restored, enters today's window because its timestamp is renewed |
| Pipeline.SubmissionAddsOneBatch | App.jsx:178-200 | a committed submission adds the inspected quantity once to its process and to the total, however many lines it has; other processes keep their counts, and the faults grow by the list's defect quantities |
| Pipeline.SubmittedBatch | App.jsx:185-195 | the records of one submission form one batch whose defect lines carry the list's faults |
| Pipeline.CleanSubmissionAddsNoFaults | App.jsx:161-168 | a "no defect" submission counts its batch as inspected and adds no fault |
| Pipeline.LeadingNoDefectRecordNotCounted | App.jsx:335-346 | a no-defect record written just before a record of its batch changes no statistic |
| Pipeline.LeadingNoDefectLineNotCounted | App.jsx:187-195 | a list that starts with the no-defect line and goes on with real lines gives the statistics of the real lines alone |
| Pipeline.TrailingNoDefectRecordNotCounted | App.jsx:335-346 | a no-defect record listed just after the first real record of its batch changes no statistic |
| Pipeline.TrailingNoDefectLineNotCounted | App.jsx:187-196 | a list that starts with the no-defect line gives the statistics of the real lines alone also when the snapshot lists the first real record before the no-defect one |
| Pipeline.KeptNoDefectLineLeavesStatsAlone | App.jsx:173-174 | the mixed list the add button leaves behind gives the same statistics as the intended add, in either order of its two records |

## Left out

- Firebase setup, authentication, the live subscription, and the store's create and delete calls are left out. These are network and persistence, so the store is a `Stamp` per written record.
- The `if (!user) return` guards are left out: authentication is not modelled.
- `executeDelete` is left out. It is a single store call with no data logic.
- `callGemini` is left out. It is an HTTP call to an external service.
- Rendering, charts, PDF generation, CSV and JSON export, and reading a backup file are left out. These are UI and browser I/O.
- A malformed backup payload is left out. Restore is modelled from an already-parsed list of records.
- The dashboard's option lists for its filter selects (`availableOptions`) are left out. They are UI data, not part of the filter.
- The per-process defect buttons in the configuration table are left out. They only feed the buttons' labels.
- The pass-rate display (100 minus the defect rate, one decimal) is left out. It is a display value.
- `Promise.all` is left out. Submission is the sequence of create requests plus one flag saying whether all succeeded; a partial commit before a failure is not modelled.
- The `isSubmitting` guard is left out. It only disables the button.
- `Date.now()` line identifiers and the `crypto.randomUUID()` call are left out. The batch identifier is a parameter. The line identifiers only serve the list's row keys and the remove-line button at App.jsx:262, and that button is left out.
- JavaScript dates, time zones and the calendar computation of window starts are left out. Window starts are a parameter and dates are day numbers.
- A record with neither a start date nor a server timestamp yet (a write not yet confirmed) gives `new Date(null)`, the 1970 epoch, in the dashboard. The model gives it no date, and no window admits it; the epoch lies before every window start, so the source agrees.
- Rates.Rate: the source computes `faults / inspected * 100` in floating point and prints it with `toFixed(2)`. The model uses exact half-up rounding, so a value whose binary form lies just below a half can print one hundredth lower in the source.
- Rates.DefectRateText: the same floating-point caveat applies to the overall rate text.
- Report.StatsOf: the source parses the row rates back with `parseFloat`, so 5.00 becomes the number 5. The model keeps the exact hundredths, which denote the same value.
- Aggregation.AggregateFaults: `parseInt(...) || 0` coercion of malformed stored quantities is not modelled. Quantities are natural numbers, as the form writes them, and a negative quantity typed into the form is not modelled.
- Submission.AddToList: a line quantity is a natural number. Typed negative or fractional line quantities are not modelled.
- Report.ProcRows: objects list integer-like keys first, in numeric order. The model lists processes and defect types in the order they are first met, which is the same unless a name is a canonical integer string such as "12"; no configured name is. Keys that collide with object prototype properties are also not modelled.
- Records.KeyStringInjective: the dashboard keys batches by the joined string. The model keys them by the pair, which agrees only while batch identifiers carry no underscore; Records.KeyStringCollides shows the difference.
- Records.ShownOnForm models the form's display rule for the optional fields: the "5." and "7." tests and the PT/UPT-only aging picker. The records follow the marker rule (`Records.Kept`).
- Restore.RestoredSnapshotKeepsCounts: a backup whose records of one batch carry different inspected quantities is not covered. Reversing the order changes which record opens such a batch, so its counted quantity can change; the form never writes such a batch, and the restore does not check for one.
- Restore.RestoreKeepsStats is stated for the records in file order. In snapshot order the row order can differ; Restore.RestoredSnapshotKeepsCounts and Restore.RestoredRowsKeepRates state what is kept.
- Pipeline.KeptNoDefectLineLeavesStatsAlone covers the two records of the mixed list in both orders. Pipeline.SubmissionAddsOneBatch is stated for the records in request order only.
- Submission.AddToListExclusiveKeepsExclusive excludes a custom defect type typed as the no-defect text itself. Such a line is indistinguishable from the sentinel.

## Findings

| source | as written | input that shows it | evidently intended | confidence | as-written member | corrected member |
|---|---|---|---|---|---|---|
| App.jsx:173-174 | The add button clears the list when it holds the no-defect line, then sets it to the old list plus the new line. Both updates read the list from when the handler started, and the second one wins, so the no-defect line stays. | List `[{불량없음, 0}]`, button "칩긁힘" selected, add pressed: the list becomes `[{불량없음, 0}, {칩긁힘, 1}]` | The no-defect line is dropped, and the list holds only `{칩긁힘, 1}` | not executed | Submission.AddToList, Submission.AddToListKeepsNoDefectLine | Submission.AddToListExclusive, Submission.AddToListExclusiveKeepsExclusive |

Once submitted, the mixed list adds one extra no-defect record to the batch. That record shows in the record list. The statistics are unaffected: `Pipeline.KeptNoDefectLineLeavesStatsAlone` proves that the mixed list's statistics equal those of the intended add.
