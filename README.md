# Wellness seven-day summary: a Dafny model

This project models the ingestion and aggregation core of the wellness service's `HealthService`.
The service takes a Health Auto Export CSV file and resolves its columns by header.
It copies the whitelisted cells of every record into a row keyed by canonical field names.
It groups the rows by parsed date and merges each date's rows into one `DailySample`.
It keeps the seven days that end at the latest date and reduces them into a `Summary7d`.
That summary becomes the one kept by the service.

The modules follow the order of the pipeline:

- `Wrappers`: `Option`, `Result` and the list of present values.
- `Text`: `norm`, `String.trim` and `String.contains`.
- `Stats`: `avg`, `avgD`, `avgInt`, `minD`, `minInt`, `maxInt`, `median`, `Math.round` and `round2`, over exact reals.
- `Model`: the field keys, `DailySample`, `Summary7d` and the upload errors.
- `Headers`: the header index, the alias table, `req`, `any` and the column lookups.
- `Rows`: `put` and the record loop.
- `Cells`: `safeDouble`, `safeLong`, `pushD`, `pushInt` and `parseDate`.
- `Merge`: `toDailySamples`, as a loop proved against a specification function `Merged`.
- `Group`: `groupingBy` on the parsed date, and the merge of every group.
- `Window`: the sort of the dates and the trailing seven-day filter.
- `Summary`: the reduce loop, proved against `SummaryOf`, and what the summary says about the days.
- `Service`: the pipeline end to end, and the `HealthService` class with its `latest` field.

Each exception the Java code throws becomes an `Err` value of `UploadError`.
The library conversions (`Double.parseDouble`, `Long.parseLong` and the four date parsers) are partial functions passed in as a `Parsers` value.
Dates are day numbers.

`toDailySamples` fills the merged `Double` fields (SpO2, audio, physical effort, stair speeds, walking metrics, exercise minutes) through `avg`.
`avg` returns 0.0 for an empty list, so these fields are never null.
Only the `avgInt` fields and HRV (`median`) can be null.

The header row is read with the default format of Apache Commons CSV (1.9 and later).
That format rejects a blank header name and accepts a name repeated verbatim.
Its header map keeps each name once, in first-occurrence order, at the column of its last occurrence.
`toMap` then collects those entries under their normalised names and fails on the first clash.

## Model

| member | source | states |
|---|---|---|
| Text.RemoveBomShape | wellness/src/main/java/com/futurestack/wellness/Service/HealthService.java:267 | `replace("\uFEFF","")` leaves no byte-order mark, and leaves text without one unchanged |
| Text.TrimShape | wellness/src/main/java/com/futurestack/wellness/Service/HealthService.java:267 | `trim` leaves no char at or below U+0020 at either end, keeps only chars of its input, and is the identity on text already trimmed |
| Text.NormShape | wellness/src/main/java/com/futurestack/wellness/Service/HealthService.java:267 | a normalised header carries no U+FEFF, no leading or trailing blank and no upper-case ASCII letter |
| Text.NormIdempotent | wellness/src/main/java/com/futurestack/wellness/Service/HealthService.java:267 | normalising a normalised header changes nothing, so `norm(e)` of an alias that equals a key's text finds that key |
| Text.ContainsSelf | wellness/src/main/java/com/futurestack/wellness/Service/HealthService.java:271 | every key contains itself, so an exact key is also a substring match |
| Stats.Mean | wellness/src/main/java/com/futurestack/wellness/Service/HealthService.java:287 | the arithmetic mean of a non-empty list lies between its least and greatest element |
| Stats.Avg | wellness/src/main/java/com/futurestack/wellness/Service/HealthService.java:287 | `avg` is 0.0 (not null) for the empty list and the mean otherwise |
| Stats.AvgD | wellness/src/main/java/com/futurestack/wellness/Service/HealthService.java:294 | `avgD` is null exactly for the empty list and the mean otherwise |
| Stats.Round | wellness/src/main/java/com/futurestack/wellness/Service/HealthService.java:288 | `Math.round`: the integer within half of the value, halves going up |
| Stats.AvgInt | wellness/src/main/java/com/futurestack/wellness/Service/HealthService.java:288 | `avgInt` is null exactly for the empty list; otherwise an integer within half of the exact mean that lies between the least and greatest element |
| Stats.MinD | wellness/src/main/java/com/futurestack/wellness/Service/HealthService.java:293 | `minD` is null exactly for the empty list, otherwise an element no greater than any other |
| Stats.MinInt | wellness/src/main/java/com/futurestack/wellness/Service/HealthService.java:295 | `minInt` is null exactly for the empty list, otherwise an element no greater than any other |
| Stats.MaxInt | wellness/src/main/java/com/futurestack/wellness/Service/HealthService.java:296 | `maxInt` is null exactly for the empty list, otherwise an element no smaller than any other |
| Stats.Sort | wellness/src/main/java/com/futurestack/wellness/Service/HealthService.java:290 | the sorted copy is ordered and a permutation of the list |
| Stats.SortedUnique | wellness/src/main/java/com/futurestack/wellness/Service/HealthService.java:290 | two ordered permutations of the same list are equal, so the sorted copy is determined |
| Stats.Middle | wellness/src/main/java/com/futurestack/wellness/Service/HealthService.java:291 | the middle of an ordered list (the mean of the two middles for even length) lies between the two middle elements |
| Stats.Median | wellness/src/main/java/com/futurestack/wellness/Service/HealthService.java:289-292 | `median` is null exactly for the empty list, lies between the least and greatest element, and is the element itself for a singleton |
| Stats.MedianOrderFree | wellness/src/main/java/com/futurestack/wellness/Service/HealthService.java:289-292 | two lists with the same elements, in any order, have the same median |
| Stats.Round2 | wellness/src/main/java/com/futurestack/wellness/Service/HealthService.java:297 | `round2` gives the nearest whole number of hundredths, halves rounded up, so it moves a value by at most half a hundredth |
| Headers.Positions | wellness/src/main/java/com/futurestack/wellness/Service/HealthService.java:28-32 | the parser's header map holds every header name, at the last column carrying it: a repeated name is accepted and its later column replaces the earlier |
| Headers.Names | wellness/src/main/java/com/futurestack/wellness/Service/HealthService.java:32-33 | the header map's names are the header's names, each once |
| Headers.HeaderMap | wellness/src/main/java/com/futurestack/wellness/Service/HealthService.java:32-33 | `getHeaderMap().entrySet()` pairs each distinct header name, once, with the last column carrying it, and misses no header |
| Headers.ToMap | wellness/src/main/java/com/futurestack/wellness/Service/HealthService.java:33-34 | a successful `Collectors.toMap` maps every entry's key to that entry's column, and holds no other key |
| Headers.ToMapAccepts | wellness/src/main/java/com/futurestack/wellness/Service/HealthService.java:33-34 | `toMap` succeeds when no two entries share a key |
| Headers.ToMapRejects | wellness/src/main/java/com/futurestack/wellness/Service/HealthService.java:33-34 | a failing `toMap` names a key that two entries share |
| Headers.KeyedIndex | wellness/src/main/java/com/futurestack/wellness/Service/HealthService.java:32-34 | collected under any key, every header's key maps to the last column carrying that header's name, and every key is some header's |
| Headers.KeyedAccepts | wellness/src/main/java/com/futurestack/wellness/Service/HealthService.java:32-34 | collected under any key, the header map is accepted when different header names have different keys |
| Headers.KeyedClash | wellness/src/main/java/com/futurestack/wellness/Service/HealthService.java:32-34 | collected under any key, the header map is rejected when two different header names share a key |
| Headers.KeyedRejects | wellness/src/main/java/com/futurestack/wellness/Service/HealthService.java:32-34 | a rejected collection names a key shared by two different header names |
| Headers.IndexOf | wellness/src/main/java/com/futurestack/wellness/Service/HealthService.java:28-34 | a blank header name is rejected by the parser; on success every header's normalised text maps to the last column carrying that exact header name, and every key is some header's normalised text |
| Headers.IndexOfDuplicates | wellness/src/main/java/com/futurestack/wellness/Service/HealthService.java:28-34 | the index is built exactly when no header name is blank and no two different header names normalise alike (a name repeated verbatim is accepted); a clash names the shared normalised text |
| Headers.LookupsComplete | wellness/src/main/java/com/futurestack/wellness/Service/HealthService.java:37-60 | the 24 lookups name every field exactly once, each with its own alias list |
| Headers.FirstExact | wellness/src/main/java/com/futurestack/wellness/Service/HealthService.java:269 | the normalised first alias that is a key, absent exactly when no alias is a key |
| Headers.Any | wellness/src/main/java/com/futurestack/wellness/Service/HealthService.java:274-277 | `any` never fails: it answers some key containing a normalised needle, and null exactly when no key contains one |
| Headers.Req | wellness/src/main/java/com/futurestack/wellness/Service/HealthService.java:268-273 | `req` answers the first exact alias if there is one, otherwise some key containing an alias, and throws `MissingColumn` with the aliases exactly when neither exists |
| Headers.ExactIsLoose | wellness/src/main/java/com/futurestack/wellness/Service/HealthService.java:268-273 | a key equal to a normalised alias also contains it, so `req` throws exactly when no key contains any normalised alias |
| Headers.LookUp | wellness/src/main/java/com/futurestack/wellness/Service/HealthService.java:37-60 | `req` for a required field fails exactly when it cannot be resolved; `any` for physical effort never fails and yields a key exactly when one matches |
| Headers.ResolveColumns | wellness/src/main/java/com/futurestack/wellness/Service/HealthService.java:37-60 | the lookups succeed exactly when every required field is resolvable; each field is then bound to a key its lookup may answer, and otherwise the first unresolvable field's aliases are the error |
| Rows.Put | wellness/src/main/java/com/futurestack/wellness/Service/HealthService.java:278-280 | `put` writes nothing for a null or unindexed key, otherwise stores the cell at the key's column under the field, or fails when the record is too short |
| Rows.DecodeRecord | wellness/src/main/java/com/futurestack/wellness/Service/HealthService.java:63-87 | the 24 `put` calls succeed exactly when the record is long enough for every bound column; the row then holds exactly the bound fields with their cells, otherwise the first short column is the error |
| Rows.DecodedUnique | wellness/src/main/java/com/futurestack/wellness/Service/HealthService.java:63-87 | a record decodes to one row only |
| Rows.DecodeRecords | wellness/src/main/java/com/futurestack/wellness/Service/HealthService.java:62-89 | the record loop yields one decoded row per record, in order, exactly when every record is long enough, else the error of the first short record |
| Cells.SafeDouble | wellness/src/main/java/com/futurestack/wellness/Service/HealthService.java:284 | `safeDouble`: a null or whitespace-only cell counts exactly 0.0; any other cell is its parsed trimmed text |
| Cells.SafeLong | wellness/src/main/java/com/futurestack/wellness/Service/HealthService.java:285 | `safeLong`: a null or whitespace-only cell counts exactly 0; any other cell is parsed as a long, its failure reported with the trimmed text |
| Cells.CellReal | wellness/src/main/java/com/futurestack/wellness/Service/HealthService.java:282 | the value `pushD` appends is absent exactly for a blank cell |
| Cells.CellInt | wellness/src/main/java/com/futurestack/wellness/Service/HealthService.java:281 | the value `pushInt` appends is absent exactly for a blank cell |
| Cells.SumAndListAgree | wellness/src/main/java/com/futurestack/wellness/Service/HealthService.java:281-285 | a blank cell adds 0 to a sum and nothing to a list; any other cell adds the same number to both or makes both fail alike |
| Cells.CellIntRounds | wellness/src/main/java/com/futurestack/wellness/Service/HealthService.java:281 | `pushInt` appends, for the same cells as `pushD`, the integer within half of the parsed number |
| Cells.PushD | wellness/src/main/java/com/futurestack/wellness/Service/HealthService.java:282 | the list is unchanged for a blank cell, otherwise it gains exactly the parsed number at its end, or the upload fails with the cell's text |
| Cells.PushInt | wellness/src/main/java/com/futurestack/wellness/Service/HealthService.java:281 | the list is unchanged for a blank cell, otherwise it keeps its prefix and gains exactly one integer within half of the parsed number, or the upload fails |
| Cells.FirstAccepted | wellness/src/main/java/com/futurestack/wellness/Service/HealthService.java:304 | the answer of the first format that accepts the text, absent exactly when every format rejects it |
| Cells.ParseDateFirstWins | wellness/src/main/java/com/futurestack/wellness/Service/HealthService.java:302-306 | `parseDate` is decided by the first of `yyyy-MM-dd`, `M/d/yy`, `yyyy/M/d`, default parse that accepts the trimmed text, fails with that text only when all four reject it, and ignores surrounding whitespace |
| Merge.MergeDay | wellness/src/main/java/com/futurestack/wellness/Service/HealthService.java:193-264 | the merge loop of `toDailySamples` computes exactly the sample `Merged` describes, errors included |
| Merge.ReadRowsErrPersists | wellness/src/main/java/com/futurestack/wellness/Service/HealthService.java:207-234 | once a row fails to convert, the whole date fails with that row's error |
| Merge.ReadAmountsCells | wellness/src/main/java/com/futurestack/wellness/Service/HealthService.java:210-217 | the cumulative cells of a row convert exactly when each of the seven does |
| Merge.ReadHeartRatesCells | wellness/src/main/java/com/futurestack/wellness/Service/HealthService.java:218-222 | the heart-rate cells of a row convert exactly when each of the five does |
| Merge.ReadRatesCells | wellness/src/main/java/com/futurestack/wellness/Service/HealthService.java:223-233 | the other rate cells of a row convert exactly when each of the eleven does |
| Merge.ReadRowCells | wellness/src/main/java/com/futurestack/wellness/Service/HealthService.java:210-233 | one iteration of the merge loop fails exactly when some cell it converts does not parse |
| Merge.ReadRowsEach | wellness/src/main/java/com/futurestack/wellness/Service/HealthService.java:207-234 | the loop fails exactly when some row fails, and otherwise reads each row as that row alone reads |
| Merge.AccOfSum | wellness/src/main/java/com/futurestack/wellness/Service/HealthService.java:210-217 | each running sum is the total of its amount over the rows read so far |
| Merge.AccOfHeartRates | wellness/src/main/java/com/futurestack/wellness/Service/HealthService.java:218-222 | each heart-rate list holds the present values of the rows read so far, in order |
| Merge.AccOfRates | wellness/src/main/java/com/futurestack/wellness/Service/HealthService.java:223-233 | each rate list holds the present values of the rows read so far, in order |
| Merge.MergedOk | wellness/src/main/java/com/futurestack/wellness/Service/HealthService.java:207-234 | a date merges exactly when its first row's date parses and every row's cells convert; the sample's date is the first row's |
| Merge.MergedAmount | wellness/src/main/java/com/futurestack/wellness/Service/HealthService.java:210-217 | each cumulative field of the merged sample is the sum over the date's rows, a blank cell counting 0 |
| Merge.MergedSteps | wellness/src/main/java/com/futurestack/wellness/Service/HealthService.java:213 | the merged step count is the sum of the rows' step cells, a blank cell counting 0 |
| Merge.CellIntsBlank | wellness/src/main/java/com/futurestack/wellness/Service/HealthService.java:281 | no row contributes a heart-rate value exactly when every row leaves that cell blank |
| Merge.CellRealsBlank | wellness/src/main/java/com/futurestack/wellness/Service/HealthService.java:282 | no row contributes a rate value exactly when every row leaves that cell blank |
| Merge.MergedHeartRate | wellness/src/main/java/com/futurestack/wellness/Service/HealthService.java:245-258 | each merged heart rate is `avgInt` of the rows' rounded values, null exactly when every row leaves the cell blank |
| Merge.MergedHrv | wellness/src/main/java/com/futurestack/wellness/Service/HealthService.java:248 | merged HRV is the median of the rows' values, null exactly when every row leaves the cell blank |
| Merge.MergedAverage | wellness/src/main/java/com/futurestack/wellness/Service/HealthService.java:239-260 | every merged rate reduced by `avg` is present and is the mean of the rows' values, 0.0 when every row leaves the cell blank |
| Group.DatesEach | wellness/src/main/java/com/futurestack/wellness/Service/HealthService.java:94 | the grouping keys are the rows' own parsed dates; they fail exactly when some row's date fails, with the first such row's error |
| Group.RowsOnExact | wellness/src/main/java/com/futurestack/wellness/Service/HealthService.java:94 | the group of a date holds exactly the rows with that date, as many as there are |
| Group.GroupsFail | wellness/src/main/java/com/futurestack/wellness/Service/HealthService.java:93-94 | grouping fails exactly when some row's date does not parse, with the error of the first such row |
| Group.GroupsKeys | wellness/src/main/java/com/futurestack/wellness/Service/HealthService.java:93-94 | there is one group per date that occurs among the rows, and no group is empty |
| Group.GroupsDated | wellness/src/main/java/com/futurestack/wellness/Service/HealthService.java:93-94 | every row of a date's group is one of the rows, and its date parses to that date |
| Group.GroupsCover | wellness/src/main/java/com/futurestack/wellness/Service/HealthService.java:93-94 | every row lies in the group of its own date |
| Group.MergedDateIsKey | wellness/src/main/java/com/futurestack/wellness/Service/HealthService.java:93-98 | the merged sample of a group carries the group's own date as its `date` |
| Group.MergeGroups | wellness/src/main/java/com/futurestack/wellness/Service/HealthService.java:95-98 | on success there is one merged sample per group, each that group's merge; a failure is the error of some group's merge |
| Window.Latest | wellness/src/main/java/com/futurestack/wellness/Service/HealthService.java:104 | the latest date is one of the dates and no date is after it |
| Window.InsertDay | wellness/src/main/java/com/futurestack/wellness/Service/HealthService.java:102 | one insertion keeps the dates ascending and adds exactly the new date |
| Window.AscendingUnique | wellness/src/main/java/com/futurestack/wellness/Service/HealthService.java:102 | two ascending lists of the same dates are equal, so sorting leaves nothing open |
| Window.SortedOf | wellness/src/main/java/com/futurestack/wellness/Service/HealthService.java:101-102 | the reference sort: ascending and holding exactly the dates |
| Window.SortedDays | wellness/src/main/java/com/futurestack/wellness/Service/HealthService.java:101-102 | `Collections.sort` of the key list yields the reference ascending order of the dates |
| Window.SortedEnds | wellness/src/main/java/com/futurestack/wellness/Service/HealthService.java:103-104 | the sorted dates are empty exactly when there are no dates, and otherwise end with the latest date |
| Window.Since | wellness/src/main/java/com/futurestack/wellness/Service/HealthService.java:106 | the filter keeps exactly the dates not before `from`, keeping ascending order |
| Window.WeekMembers | wellness/src/main/java/com/futurestack/wellness/Service/HealthService.java:104-106 | the window is ascending and holds exactly the dates in the seven days ending at the latest date |
| Window.WeekShape | wellness/src/main/java/com/futurestack/wellness/Service/HealthService.java:104-106 | the window has between one and seven dates and ends with the latest date |
| Window.WeekOfSubset | wellness/src/main/java/com/futurestack/wellness/Service/HealthService.java:101-106 | any subset of the dates that keeps all of the window's dates has the same latest date and the same window |
| Window.LastWeek | wellness/src/main/java/com/futurestack/wellness/Service/HealthService.java:101-106 | no dates is the "No data rows." error, and any dates give exactly their window |
| Summary.AddIfPresent | wellness/src/main/java/com/futurestack/wellness/Service/HealthService.java:133-152 | `if (x != null) list.add(x)`: the list gains the value exactly when there is one |
| Summary.AddDay | wellness/src/main/java/com/futurestack/wellness/Service/HealthService.java:122-153 | one iteration of the reduce loop is the step `Add` describes |
| Summary.Reduce | wellness/src/main/java/com/futurestack/wellness/Service/HealthService.java:109-186 | the reduce loop over the window builds the summary of the window's samples in window order |
| Summary.IntListPresent | wellness/src/main/java/com/futurestack/wellness/Service/HealthService.java:133-143 | each heart-rate list is the non-null daily values, in day order, one per day that carries the metric |
| Summary.IntListMembers | wellness/src/main/java/com/futurestack/wellness/Service/HealthService.java:133-143 | each heart-rate list holds exactly the values of the days that carry the metric |
| Summary.RealListPresent | wellness/src/main/java/com/futurestack/wellness/Service/HealthService.java:144-152 | each decimal-metric list is the non-null daily values, in day order, one per day that carries the metric |
| Summary.RealListMembers | wellness/src/main/java/com/futurestack/wellness/Service/HealthService.java:144-152 | each decimal-metric list holds exactly the values of the days that carry the metric |
| Summary.TallyCopies | wellness/src/main/java/com/futurestack/wellness/Service/HealthService.java:137-152 | the resting-heart-rate min and max lists and the SpO2 min list are copies of the lists their averages read |
| Summary.TallyAmounts | wellness/src/main/java/com/futurestack/wellness/Service/HealthService.java:124-128 | each running total is the sum of that amount over the days |
| Summary.TallySteps | wellness/src/main/java/com/futurestack/wellness/Service/HealthService.java:127 | the step total is the exact sum of the days' steps |
| Summary.TallyExercise | wellness/src/main/java/com/futurestack/wellness/Service/HealthService.java:153 | every day adds its exercise minutes to the list, whatever they are |
| Summary.HitsRange | wellness/src/main/java/com/futurestack/wellness/Service/HealthService.java:130-131 | at most all days meet a goal; none exactly when no day does, all exactly when every day does |
| Summary.TallyGoals | wellness/src/main/java/com/futurestack/wellness/Service/HealthService.java:130-131 | each goal counter counts the days that met the goal |
| Summary.WeekHrMin | wellness/src/main/java/com/futurestack/wellness/Service/HealthService.java:168 | the weekly minimum heart rate is `minInt` of the non-null daily minimums in day order: the least of them, null exactly when no day has one |
| Summary.WeekHrMax | wellness/src/main/java/com/futurestack/wellness/Service/HealthService.java:169 | the weekly maximum heart rate is `maxInt` of the non-null daily maximums in day order: the greatest of them, null exactly when no day has one |
| Summary.WeekIntAverage | wellness/src/main/java/com/futurestack/wellness/Service/HealthService.java:167-174 | the weekly average, resting and walking heart rates are `avgInt` of the non-null daily values in day order: null exactly when no day has the metric, and otherwise between the lowest and highest daily value |
| Summary.WeekRestingHr | wellness/src/main/java/com/futurestack/wellness/Service/HealthService.java:170-172 | the resting-heart-rate minimum and maximum are `minInt` and `maxInt` of the non-null daily values; minimum, average and maximum are null together, minimum and maximum are the least and greatest daily values and the average lies between them |
| Summary.WeekRealAverage | wellness/src/main/java/com/futurestack/wellness/Service/HealthService.java:176-184 | each weekly walking, stair, audio and SpO2 average is `avgD` of the non-null daily values in day order: null exactly when no day has the metric, and otherwise between the lowest and highest daily value |
| Summary.WeekHrv | wellness/src/main/java/com/futurestack/wellness/Service/HealthService.java:173 | the weekly HRV median is `median` of the non-null daily HRV values in day order: null exactly when no day has HRV, and otherwise between the lowest and highest daily HRV |
| Summary.WeekSpo2Min | wellness/src/main/java/com/futurestack/wellness/Service/HealthService.java:184-185 | the weekly SpO2 minimum is `minD` of the non-null daily SpO2 values: the least of them, null exactly when the average is, and never above the average |
| Summary.WeekGoalDays | wellness/src/main/java/com/futurestack/wellness/Service/HealthService.java:162-163 | each goal count is the number of days meeting the inclusive threshold: at most the days, positive exactly when some day met it, below all exactly when some day missed it |
| Summary.WeekTotal | wellness/src/main/java/com/futurestack/wellness/Service/HealthService.java:158-164 | each weekly energy, distance and stand total is the sum of the daily amounts (stand minutes in hours) rounded to hundredths |
| Summary.WeekSteps | wellness/src/main/java/com/futurestack/wellness/Service/HealthService.java:165 | the weekly step count is the exact sum of the daily step counts |
| Summary.WeekExercise | wellness/src/main/java/com/futurestack/wellness/Service/HealthService.java:160 | average exercise minutes are per window day, days without exercise included: 0 for no days, else the rounded mean, within half a hundredth of the daily range |
| Service.WeekGoalsAtMostSeven | wellness/src/main/java/com/futurestack/wellness/Service/HealthService.java:130-131 | a weekly goal count lies between 0 and 7 |
| Service.EarlierDatesIgnored | wellness/src/main/java/com/futurestack/wellness/Service/HealthService.java:101-106 | dates before the window, and their samples, do not affect the summary |
| Service.ReadUpload | wellness/src/main/java/com/futurestack/wellness/Service/HealthService.java:28-89 | step 1 fails with the index error, with the first missing required column, or with the first short record; on success the rows are the records decoded under a valid column resolution, none for no records |
| Service.CollapseByDate | wellness/src/main/java/com/futurestack/wellness/Service/HealthService.java:93-98 | step 2 fails with the first bad date or a failing merge; on success it maps each occurring date to its merged sample, and no dates exactly when there are no rows |
| Service.SummarizeWeek | wellness/src/main/java/com/futurestack/wellness/Service/HealthService.java:100-186 | steps 3 and 4 fail with "No data rows." exactly when there are no dates, and otherwise give the summary of the window |
| Service.SummarizeRows | wellness/src/main/java/com/futurestack/wellness/Service/HealthService.java:93-186 | steps 2 to 4: no rows is "No data rows."; when every date parses and merges the summary is that of the window of the merged dates |
| Service.HealthService.constructor | wellness/src/main/java/com/futurestack/wellness/Service/HealthService.java:21 | no summary is kept before the first upload |
| Service.HealthService.GetLatest | wellness/src/main/java/com/futurestack/wellness/Service/HealthService.java:23 | `getLatest` returns the kept summary |
| Service.HealthService.UploadAndSummarize | wellness/src/main/java/com/futurestack/wellness/Service/HealthService.java:26-190 | a failed upload leaves the kept summary as it was; a successful one keeps and returns the summary of the window of the decoded, grouped and merged records |

## Left out

- CSV tokenisation, the multipart stream and UTF-8 decoding are library I/O. The input is the header row plus the records, already split into cells.
- Apache Commons CSV is not part of this model. Its header-map rules for the default format are modelled from its documented behaviour: blank names rejected, repeated names accepted, last column kept.
- Doubles are exact reals, so IEEE rounding, NaN and infinities are not modelled. `minD`/`avgD` never reach their `NaN` fallback, because they handle the empty list first.
- `int` and `long` arithmetic is unbounded. Overflow of the step sum or of `(int) Math.round` is not modelled.
- `toLowerCase(Locale.ROOT)` is modelled for ASCII letters only. Other case mappings are left out because the whitelisted headers are ASCII.
- The `java.time` formatters and `Double.parseDouble`/`Long.parseLong` are opaque partial functions. Two-digit-year and leap-day rules are theirs, not the model's.
- The last `LocalDate.parse(v)` in `parseDate` is a fourth parser that may succeed. Its failure is the `BadDate` error.
- `HashMap` iteration order is left open in three places: the substring pass of `req`, the search of `any`, and `toMap` over the date groups. The model chooses nondeterministically.
- Headers.Req: states only that the substring pass answers some matching key, not which one, because that depends on hash order.
- Group.MergeGroups: when several dates fail to merge, states only that the error is one of theirs, because the surfacing one depends on hash order.
- `toDailySamples` returns a singleton list that the reduce loop reads with `get(0)`. The model returns the sample itself.
- The reduce loop's locals are fields of one `Tally` record. The local `n` (line 156) is computed but never used and is not modelled.
- `flightsClimbed` and the physical-effort average are merged into each `DailySample` but never enter the summary.
- Service.HealthService.UploadAndSummarize: its success direction is stated per step rather than for the whole upload, because the columns `any` picks are not determined. ReadUpload and SummarizeRows carry it.
- Service.SummarizeRows: does not state that a merge failure is its only other error. CollapseByDate states this.
- Concurrency around `latest` is not modelled. The field is plain and unsynchronised.
- `CerebrasService` and `HealthController` are not part of this model.
