# focus-t time accounting, modelled in Dafny

focus-t is a work-session timer. A session is a list of time segments: work
segments, each running from a start to an end (the last one may still be
open), plus markers for deleted breaks. Segments and whole sessions can be
moved to a trash and restored. This project models the engine that turns
these segments into the numbers the app shows:

- the running total of a session, the break time between its segments and
  its focus score (`utils.ts`);
- the per-day and per-group aggregations of the timetable, the daily chart,
  the calendar, the mini calendar and the statistics dashboard;
- the session-card and timeline figures;
- the session lifecycle in `App.tsx`: start, pause, stop, complete,
  continue, delete and restore. This is an imperative class `AppState.App`
  whose fields are the app's state;
- the history filter and the day grouping;
- the trash view;
- the settings dialogs' edits of groups and notification settings.

Time is an integer count of milliseconds. The clock (`now`), the local
time-zone offset (`tz`, with local time = UTC + `tz`) and freshly generated
ids are parameters. A local day number is `(t + tz) div 86400000`. A day
that starts at a configured hour shifts this by that hour first.
JavaScript's stable `Array.prototype.sort` is modelled by a stable
insertion sort, `Sorting.SortBy`, that is proved to give a sorted
permutation and to be stable (`Sorting.SortByStable`). `Math.round` is modelled as `floor(x + 1/2)`.

Every `ensures` below was proved by the Dafny verifier. Nothing was executed.

## Model

| member | source | states |
|---|---|---|
| `Types.OpenSegment` | App.tsx:745 | a new segment starts at the given instant, is open, is live work and carries no stop reason |
| `Types.InGroup` | workflow-timer/components/CalendarView.tsx:355-358 | the group filter keeps exactly the sessions with that groupId, and only sessions of the input |
| `Types.GroupFiltered` | components/DailyTimeTable.tsx:41-44 | 'all' keeps the list unchanged; any other id keeps exactly the sessions of that group |
| `Types.DayStartBounds` | utils.ts:217-220 | every instant lies in the 24 hours that start at the local midnight of its own local date |
| `Types.SameAdjustedDayClose` | utils.ts:47-52 | two instants with the same adjusted date string are less than a day apart |
| `Types.AdjustedDayMonotone` | utils.ts:47-52 | the adjusted date never goes backwards as time goes forwards |
| `Text.DigitChar` | utils.ts:21 | a digit value renders as the matching decimal digit character |
| `Text.NatToStringShape` | App.tsx:740 | the decimal rendering of a natural is non-empty, all digits, has no leading zero, and reads back as the same number |
| `Text.DigitsValueOfRendering` | App.tsx:734-735 | a canonical digit string is the rendering of its own value |
| `Text.ParseNatRoundTrip` | App.tsx:734-735 | parsing the rendering gives the number back, and a string parses to n exactly when it is n's rendering |
| `Text.NatToStringInjective` | App.tsx:735 | different numbers render differently |
| `Text.Pad2Digits` | utils.ts:21 | padding a value below 100 gives exactly two digits that read back as the value |
| `Text.StrLessIrreflexive` | components/StatsDashboard.tsx:201 | no date string is before itself |
| `Text.StrLessTransitive` | components/StatsDashboard.tsx:201 | string order is transitive |
| `Text.StrLessTotal` | components/StatsDashboard.tsx:201 | of two different strings one is before the other |
| `Text.StrLessAsymmetric` | components/StatsDashboard.tsx:201 | two strings are never each before the other |
| `Text.TrimStart` | App.tsx:724 | the leading trim removes only whitespace, and what is left does not start with whitespace |
| `Text.TrimEnd` | App.tsx:724 | the trailing trim removes only whitespace, and what is left does not end with whitespace |
| `Text.TrimBlank` | App.tsx:727 | a name trims to the empty string exactly when it is all whitespace |
| `Text.LowerAscii` | App.tsx:1169 | lower-casing keeps the length, leaves no ASCII capital, changes no other character and turns each capital into its own small letter |
| `Text.LowerAsciiIdempotent` | App.tsx:1169 | lowering an already lowered string changes nothing |
| `Text.LowerAsciiMatchesIgnoringCase` | App.tsx:1169 | two strings lower to the same string exactly when they agree position by position up to ASCII case, so the search ignores case |
| `Sorting.InsertBy` | utils.ts:75 | inserting into a sorted list keeps it sorted, adds exactly that element, and keeps every other |
| `Sorting.SortBy` | utils.ts:75 | the stable sort returns a permutation of its input, ascending by the key |
| `Sorting.SortBySortedIsIdentity` | utils.ts:75 | sorting a list that is already in key order changes nothing |
| `Sorting.SortByMembers` | utils.ts:75 | sorting neither adds nor drops an element |
| `Sorting.SortBySum` | App.tsx:1203 | a sum over the list does not depend on the sorted order |
| `Sorting.SortByDistinct` | App.tsx:1203 | with distinct keys the sort is strictly ascending |
| `Sorting.WithKeyAppend` | utils.ts:75 | the elements of one key, taken in order, distribute over concatenation |
| `Sorting.InsertByWithKey` | utils.ts:75 | an inserted element lands after every element of its own key |
| `Sorting.SortByStable` | utils.ts:75 | the sort is stable: for every key, the elements with that key keep their input order |
| `Sorting.WithKeyMembers` | utils.ts:75 | the elements kept for a key are exactly the input's elements with that key |
| `Sorting.WithKeyPair` | utils.ts:75 | two elements of one key appear among that key's elements in their input order |
| `Sorting.WithKeyRanked` | utils.ts:75 | keeping one key's elements keeps a strictly increasing rank strictly increasing |
| `Sorting.SortByKeepsTieOrder` | utils.ts:75 | stability on positions: elements with equal keys come out in their input order |
| `Metrics.LiveSegments` | utils.ts:40 | the filter keeps every segment of the input that is not trashed and nothing else |
| `Metrics.LiveSegmentsAppend` | utils.ts:40 | the filter keeps the stored order: it distributes over concatenation and keeps a single segment exactly when it is not trashed |
| `Metrics.TotalDurationIsLiveSpanSum` | utils.ts:36-45 | the work total is the plain sum of `(end ?? now) - start` over the segments that are not trashed |
| `Metrics.TotalDurationAppend` | utils.ts:41-44 | the total of a concatenation is the sum of the totals |
| `Metrics.TotalDurationIgnoresDeleted` | utils.ts:40 | a trashed segment, wherever it sits, never changes the total |
| `Metrics.TotalDurationNonNegative` | utils.ts:41-44 | segments that end no earlier than they start give a non-negative total |
| `Metrics.TotalDurationAfterTrashing` | utils.ts:40 | trashing one live segment lowers the total by exactly that segment's duration |
| `Metrics.IsSameDayWindow` | utils.ts:222-228 | same date means inside the 24 hours from the first instant's local midnight |
| `Metrics.DailyTotalAppend` | utils.ts:230-234 | the daily total of two lists is the sum of their daily totals |
| `Metrics.DailyTotalOtherDays` | utils.ts:232 | sessions created on other dates contribute nothing to the daily total |
| `Metrics.SegmentSpans` | utils.ts:62-68 | each collected entry is its segment with an open end replaced by now |
| `Metrics.GapContribution` | utils.ts:87-100 | a gap counts exactly when the next start is later, both ends share an adjusted date, the gap reaches the threshold and the earlier segment is not a hard stop; it then counts in full |
| `Metrics.BreakTime` | utils.ts:54-105 | the loop returns the sum of gap contributions over adjacent pairs of all segments sorted by start |
| `Metrics.CollectAll` | utils.ts:60-70 | the collection loop gathers every segment of every session, in order, trashed ones included |
| `Metrics.SumGaps` | utils.ts:77-104 | the pair loop adds the contribution of every adjacent pair |
| `Metrics.BreakTimeNonNegative` | utils.ts:87-100 | break time is never negative |
| `Metrics.CollectSpansLength` | utils.ts:60-70 | one collected entry per segment |
| `Metrics.BreakCountBounds` | workflow-timer/components/SessionCard.tsx:60-62 | there are fewer pauses than segments, and none exactly when no session has two segments |
| `Metrics.BreakCountAppend` | workflow-timer/components/SessionCard.tsx:60-62 | pause counts of two lists add up |
| `Metrics.BreakTimeWithoutPair` | utils.ts:72 | with at most one segment there is no break |
| `Metrics.PairSumThresholdAntitone` | utils.ts:96 | raising the threshold never adds break time to a pair sum |
| `Metrics.BreakTimeThresholdAntitone` | utils.ts:96 | raising the threshold never finds more break time |
| `Metrics.GapThresholdInclusive` | utils.ts:96 | a gap of exactly the threshold counts, one millisecond less does not |
| `Metrics.BreakTimeOfSortedSession` | utils.ts:75 | a session stored in start order is scanned in its stored order |
| `Metrics.PairSumOfTwo` | utils.ts:80-82 | two spans make exactly one pair |
| `Metrics.PairSumOfThree` | utils.ts:80-82 | three spans make exactly the two adjacent pairs |
| `Metrics.BreakTimeTenMinutePause` | utils.ts:87-99 | a ten-minute pause between two segments is ten minutes of break |
| `Metrics.BreakTimeAfterHardStop` | utils.ts:97 | the same pause after a hard stop is no break |
| `Metrics.BreakTimeDeletedSegmentClosesGap` | utils.ts:59 | a trashed segment that fills a gap still closes it |
| `Metrics.BreakTimeHalfHourGap` | utils.ts:87-99 | without the filler the same segments leave thirty minutes of break |
| `Metrics.BreakTimeAcrossDayStart` | utils.ts:91-94 | a pause that straddles the configured day start is no break, while the same pause inside one work day is |
| `Metrics.BreakTimeSortsSegments` | utils.ts:75 | segments are ordered by start before pairing, whatever their stored order |
| `Focus.RoundShift` | utils.ts:126 | rounding commutes with subtracting a whole number |
| `Focus.RoundMonotone` | utils.ts:126 | rounding is monotone |
| `Focus.RatioScore` | utils.ts:113-117 | the ratio score is capped at 100 |
| `Focus.ExcessBreaks` | utils.ts:120-123 | the excess break count is never negative |
| `Focus.FocusIndex` | utils.ts:108-127 | the index lies in 0..100 and is 0 when there is no time at all |
| `Focus.FocusIndexAntitoneInBreaks` | utils.ts:123-126 | more breaks never raise the index |
| `Focus.FocusIndexExcessBreakCostsFive` | utils.ts:124 | each break past the allowance takes exactly five points off the raw score |
| `Focus.FocusIndexGoldenRatio` | utils.ts:112-116 | 52 minutes of work to 17 of break with one break scores exactly 80 |
| `Focus.FocusIndexCappedAtHundred` | utils.ts:117 | work with no break scores 100, the cap |
| `Focus.SubtleGradientByTens` | utils.ts:130-140 | the threshold cascade picks the gradient of the score's tens digit, clamped to 0..9 |
| `Focus.FocusLevelBands` | utils.ts:142-207 | S from 90, A from 80 to 89, B from 60 to 79, C from 40 to 59, D below 40, each exactly on its band |
| `Focus.FocusLevelMonotone` | utils.ts:155-207 | a higher score never gets a lower level |
| `Format.FormatDurationFields` | utils.ts:15-23 | for a non-negative duration the clock fields are its whole hours, minutes below 60 and seconds below 60 |
| `Format.FormatDurationRoundTrip` | utils.ts:15-23 | below 100 hours the clock text reads back as the duration cut to whole seconds |
| `Format.FormatDurationHMRoundTrip` | utils.ts:25-33 | the short text reads back as the duration's whole minutes |
| `Format.ParseMinutesOnly` | utils.ts:31 | the "<m>m" form reads back as m minutes |
| `Format.ParseHoursAndMinutes` | utils.ts:32 | the "<h>h <m>m" form reads back as h hours and m minutes |
| `Palette.KnownKeyStyle` | utils.ts:237-280 | every one of the seven keys has an entry, and only slate has the slate classes |
| `Palette.GroupStyleFallback` | utils.ts:284-286 | a colour key has its own classes exactly when it is one of the seven keys; slate is shown for "slate" and for every unknown key |
| `Palette.ToInt32` | utils.ts:307 | the 32-bit wrap lands in the signed 32-bit range and differs from the input by a multiple of 2^32 |
| `Palette.PaletteIndex` | utils.ts:309 | `abs(hash) % 11` is a valid palette index |
| `Palette.Units` | utils.ts:307 | `charCodeAt` sees a character below U+10000 as one unit and any other as its high and low surrogates, which read back as that character |
| `Palette.CodeUnits` | utils.ts:306 | `str.length` counts one or two 16-bit code units per character |
| `Palette.HashUnitsBound` | utils.ts:305-308 | the folded hash stays within 2^32 per code unit |
| `Palette.HashBound` | utils.ts:305-308 | the folded hash of a string stays within 2^33 per character |
| `Palette.GenerateTaskColor` | utils.ts:304-311 | the loop over the string's UTF-16 code units gives a palette entry, the one the folded hash selects |
| `Palette.TaskColorOfEmpty` | utils.ts:305-310 | the empty string gets the first palette colour |
| `Palette.HashOfUnits` | utils.ts:307 | one code unit hashes to itself and two units to `low + 31 * high` |
| `Palette.HashOfOneChar` | utils.ts:307 | a one-character string hashes to its own code below U+10000, and to `low + 31 * high` of its surrogates above it |
| `Types.FindById` | App.tsx:888 | the lookup returns the first session of the list with that id (no earlier one has it), and nothing exactly when no session has it |
| `Types.LiveWorkCount` | workflow-timer/components/TimetableList.tsx:296 | the count is the number of positions holding a segment that is neither trashed nor a deleted-gap marker |
| `Clip.SessionItems` | workflow-timer/components/TimetableList.tsx:82-96 | every kept item of a session is clipped into the window with a positive length |
| `Clip.AllItems` | workflow-timer/components/TimetableList.tsx:81-98 | every item comes from one of the sessions and lies inside the window |
| `Clip.SortedItems` | workflow-timer/components/TimetableList.tsx:101 | the items, clipped into the window, in ascending start order |
| `Clip.CollectItems` | workflow-timer/components/TimetableList.tsx:81-98 | the nested push loops produce exactly the clipped items of every session in order |
| `Clip.ItemKeptIff` | workflow-timer/components/TimetableList.tsx:83-85 | a segment is kept exactly when, after clipping, it ends after it starts |
| `Timetable.MinFirstStart` | workflow-timer/components/TimetableList.tsx:45 | the earliest first start: no session's first segment starts before it, and one starts at it |
| `Timetable.MaxSegmentEnd` | workflow-timer/components/TimetableList.tsx:46 | the latest `end or now` of a session's segments, attained by one of them |
| `Timetable.MaxEnd` | workflow-timer/components/TimetableList.tsx:46 | the latest `end or now` across all sessions: every segment ends by it, and some segment of some session ends exactly at it |
| `Timetable.NineAm` | workflow-timer/components/TimetableList.tsx:54 | `setHours(9,0,0,0)` on the target date: the same local date, nine hours after its midnight |
| `Timetable.Window` | workflow-timer/components/TimetableList.tsx:48-59 | pause-only with sessions: from the earliest first start to the latest end, covering every session; pause-only without sessions: the work day, or 9:00 of the target date to now; attendance: a set work day is the window, otherwise the earliest first start (or 9:00) to now while a session is active or none exists, else to the latest end |
| `Timetable.BreakSlice` | workflow-timer/components/TimetableList.tsx:109-129 | a gap slice is made exactly when the gap is positive, on the same adjusted day as the last end, and at least a minute or after a hard stop; it spans the gap, is a pause after a hard stop and a break otherwise, and names the last session |
| `Timetable.ClipEnd` | workflow-timer/components/TimetableList.tsx:146 | the clipped end is the smaller of the limit and `end or now`: it passes neither and equals one of them |
| `Timetable.OtherSegmentsOf` | workflow-timer/components/TimetableList.tsx:143-148 | a piece is taken from the first `n` segments of a session exactly when it is one of them that is not trashed and still ends after it starts once clipped to the gap |
| `Timetable.OtherSegments` | workflow-timer/components/TimetableList.tsx:141-148 | a piece is collected exactly when it is such a segment of a session of another group that is not in the trash; every piece reaches into the gap |
| `Timetable.OtherWorkIn` | workflow-timer/components/TimetableList.tsx:141-149 | the other-group work is a permutation of the collected pieces, sorted by start, holding exactly the reaching untrashed segments of untrashed sessions of other groups |
| `Timetable.TiledConcat` | workflow-timer/components/TimetableList.tsx:153-185 | two tilings of adjacent intervals make a tiling of their union |
| `Timetable.PiecesOkConcat` | workflow-timer/components/TimetableList.tsx:153-185 | well-formed gap pieces stay well formed when joined |
| `Timetable.GapStep` | workflow-timer/components/TimetableList.tsx:155-179 | one cursor step emits the break before the other work and the clipped other work, left to right between the old and new cursor, labelled with that session's name; the cursor becomes the later of itself and the clipped end |
| `Timetable.FillFold` | workflow-timer/components/TimetableList.tsx:155-179 | the cursor after walking any number of pieces stays inside the gap |
| `Timetable.FillFoldOk` | workflow-timer/components/TimetableList.tsx:155-179 | the walked pieces tile the gap from its start to the cursor, every break among them is the addBreakSegment slice, and every other-group piece is named after one of the pieces walked |
| `Timetable.WalkOthers` | workflow-timer/components/TimetableList.tsx:152-180 | the cursor loop computes exactly the walk `FillFold` over all the other work, the cursor staying inside the gap |
| `Timetable.LabelsFromOthers` | workflow-timer/components/TimetableList.tsx:155-179 | one more step keeps every other-group piece named after a piece walked |
| `Timetable.FillGap` | workflow-timer/components/TimetableList.tsx:151-185 | the pieces are exactly the cursor walk's pieces followed by the tail break; they tile the gap, and each other-group slice is named after one of the other sessions |
| `Timetable.GapSlices` | workflow-timer/components/TimetableList.tsx:133-193 | the slices of one gap are exactly `GapPieces`: the cursor walk when a group is selected and other-group work reaches into the gap, otherwise the addBreakSegment slice or nothing; they tile the gap |
| `Timetable.ItemSlice` | workflow-timer/components/TimetableList.tsx:196-228 | an item becomes one slice over its own span, trashed exactly when the segment is, ongoing exactly when it is an open segment of an active session, and pointing back to its session and index |
| `Timetable.ItemSlicesMeaning` | workflow-timer/components/TimetableList.tsx:131-235 | one slice per item, in order |
| `Timetable.WorkSlicesAppendGaps` | workflow-timer/components/TimetableList.tsx:131-235 | adding gap slices does not change the work and trashed slices |
| `Timetable.ReverseReverse` | workflow-timer/components/TimetableList.tsx:287 | reversing twice gives the list back |
| `Timetable.AppendGapPieces` | workflow-timer/components/TimetableList.tsx:133-193 | the scan invariant survives adding a gap's pieces |
| `Timetable.AppendItemSlice` | workflow-timer/components/TimetableList.tsx:196-234 | the scan invariant survives adding an item's slice, and the work slices grow by exactly that slice |
| `Timetable.AdvanceItem` | workflow-timer/components/TimetableList.tsx:131-235 | one pass of the loop body computes exactly `ScanStep`, keeps the scan invariant and adds the item's slice to the work slices |
| `Timetable.ScanItems` | workflow-timer/components/TimetableList.tsx:131-235 | the item loop computes exactly the fold `ScanFold` over all items, with its slices inside the window in order and the work slices equal to the item slices |
| `Timetable.Scan` | workflow-timer/components/TimetableList.tsx:103-284 | the slices are exactly `ScanSpec`, the item-by-item fold followed by the tail gap; they lie inside the window in start order, every gap slice is well formed, and the work and trashed slices are exactly the item slices in order |
| `Timetable.TimelineData` | workflow-timer/components/TimetableList.tsx:44-288 | no filtered sessions and no work day give no slices; otherwise the slices are `ScanSpec` of the sorted items over the window, reversed: inside the window, newest first, gap slices well formed, and one non-gap slice per clipped segment |
| `Timetable.HandleDeleteClick` | workflow-timer/components/TimetableList.tsx:290-307 | an unknown session does nothing; deleting the only live work segment asks for confirmation, any other goes straight through |
| `Timetable.Reverse` | workflow-timer/components/TimetableList.tsx:287 | the newest-first list is the scan output read backwards, element by element |
| `DailyChart.AllLiveSegments` | components/DailyTimeTable.tsx:152 | a segment is listed exactly when it is a segment of one of the sessions and is not in the trash |
| `DailyChart.AllLiveStep` | components/DailyTimeTable.tsx:152 | one more session adds exactly its own segments outside the trash |
| `DailyChart.MinSegmentStart` | components/DailyTimeTable.tsx:160 | `Math.min` over the starts: no start is earlier and one start equals it |
| `DailyChart.ChartWindow` | components/DailyTimeTable.tsx:151-161 | with live segments the window is exactly `Math.min` of their starts to `Math.max` of their ends or now: it covers every one, and each end is reached by one of them; with none it runs from 09:00 of the target date to now |
| `DailyChart.ChartWindowBounds` | components/DailyTimeTable.tsx:160-161 | the least start and greatest end of the listed segments bound every live segment of every session and are each reached by one |
| `DailyChart.WorkSlice` | components/DailyTimeTable.tsx:228-239 | a work slice spans its item and lasts as long as it |
| `DailyChart.GapSlice` | components/DailyTimeTable.tsx:203-221 | a break slice is made exactly when the gap is positive and does not follow a hard stop; it spans the gap and carries the break label and fill |
| `DailyChart.ChartScan` | components/DailyTimeTable.tsx:198-262 | the loop over the items and the tail gap yields exactly the scan over the items followed by the tail gap |
| `DailyChart.ScanItem` | components/DailyTimeTable.tsx:201-243 | one item adds a break slice for a positive gap not after a hard stop, then the item's own slice unless it is trashed, and moves the cursor to the later of itself and the item's end |
| `DailyChart.ChartWorkIsLiveItems` | components/DailyTimeTable.tsx:224-239 | the chart's work slices are exactly one per item outside the trash, in item order |
| `DailyChart.FoldWork` | components/DailyTimeTable.tsx:201-244 | before the tail gap the work slices are already one per item outside the trash |
| `DailyChart.FoldInvariant` | components/DailyTimeTable.tsx:201-244 | over sorted in-window items the cursor passes every item and every break lies between the start and the cursor, missing every item |
| `DailyChart.ChartBreaksAreGaps` | components/DailyTimeTable.tsx:198-262 | no break slice overlaps any clipped item, trashed ones included |
| `DailyChart.ChartSlicesPositive` | components/DailyTimeTable.tsx:203-262 | every slice has a positive duration equal to its span |
| `DailyChart.HardStopGapOnlyInList` | components/DailyTimeTable.tsx:205-209 | after a hard stop the chart drops the gap that the list shows as a pause slice |
| `DailyChart.SumDurations` | components/DailyTimeTable.tsx:265 | the reduce gives the sum of the slices' durations |
| `DailyChart.PlaceSlices` | components/DailyTimeTable.tsx:264-283 | each slice's share is its duration over `max(1, total)`; the ring starts at 0, each slice starts where the previous ends, and the last ends at total over `max(1, total)` |
| `DailyChart.FirstIndex` | components/DailyTimeTable.tsx:291 | a found index holds a slice with that label |
| `DailyChart.FirstIndexIsFirst` | components/DailyTimeTable.tsx:291 | no earlier slice has the label, and nothing is found only when no slice has it |
| `DailyChart.MergeByLabel` | components/DailyTimeTable.tsx:288-305 | one entry per label with the label's total duration, slice count and first slice's colour and flags, the entries in order of their labels' first appearance (the Map's insertion order) |
| `DailyChart.MergeSlice` | components/DailyTimeTable.tsx:289-304 | one more slice keeps the map's invariant: labels stay distinct, each entry still totals and counts exactly its label's slices with its first slice's colour and flags, every label is covered, the durations still sum to the chart total, and the entries stay in order of first appearance |
| `DailyChart.AggregateByLabel` | components/DailyTimeTable.tsx:287-308 | labels are distinct, every label of the chart has an entry describing it, the durations sum to the chart total, and the list is sorted longest first, labels of equal duration in order of first appearance (the sort is stable) |
| `DailyChart.SeenOrderStep` | components/DailyTimeTable.tsx:289-304 | adding to an existing entry or appending a new label keeps the entries in order of first appearance |
| `DailyChart.PermutedAggOk` | components/DailyTimeTable.tsx:307 | sorting the merged entries keeps them distinct, describing and covering |
| `DailyChart.ChartData` | components/DailyTimeTable.tsx:150-284 | the window is `ChartWindow`; with no shown session there are no slices; otherwise the placed slices are the scan of the shown sessions' sorted clipped items, laid out end to end |
| `DailyChart.MaxLiveDuration` | components/DailyTimeTable.tsx:104-111 | the longest span of a segment outside the trash (or 0): it bounds every such span and is attained by one when positive |
| `DailyChart.DailyStats` | components/DailyTimeTable.tsx:99-114 | the day's work total, break time with the one-minute threshold, pause count, and the longest live segment: at least every live span and equal to one of them (0 without any) |
| `DailyChart.Named` | components/DailyTimeTable.tsx:120 | every shown session with exactly that name is kept, and no other |
| `DailyChart.NamedAppend` | components/DailyTimeTable.tsx:120 | the name filter keeps the stored order: it distributes over concatenation |
| `Metrics.SessionsWorkNonNegative` | components/DailyTimeTable.tsx:123-128 | the summed work of any sessions is never negative when each segment ends after it starts |
| `Metrics.SessionsWorkAppend` | App.tsx:1198 | the summed work of two lists of sessions put together is the sum of their work |
| `DailyChart.SelectedTaskStats` | components/DailyTimeTable.tsx:117-145 | no stats exactly when no task is highlighted; otherwise the work, break time, pause count and longest segment (bound and attained) of the sessions with that name |
| `SessionCard.CardHeader` | workflow-timer/components/SessionCard.tsx:48-54 | the header's total is the work total; start and end come from the first and last stored segment, or the creation time and no end without segments; on hold and running exactly as the session says |
| `SessionCard.CardStartIsEarliest` | workflow-timer/components/SessionCard.tsx:49 | with segments in start order the header's start is the earliest start |
| `SessionCard.CardGap` | workflow-timer/components/SessionCard.tsx:76-81 | a gap is counted exactly when the segment is closed, the next starts later and it was not a hard stop; never negative |
| `SessionCard.Stats` | workflow-timer/components/SessionCard.tsx:57-86 | the longest segment outside the trash bounds every live span and is attained when positive; break time and break count are the counted gaps between stored-order neighbours |
| `SessionCard.GapCountBound` | workflow-timer/components/SessionCard.tsx:73-83 | at most one break per pair of neighbours, none for fewer than two segments |
| `SessionCard.GapTotalCount` | workflow-timer/components/SessionCard.tsx:76-81 | every counted break lasts at least 1 ms, so there is break time exactly when a break was counted |
| `SessionCard.ElapsedIsWorkPlusBreaks` | workflow-timer/components/SessionCard.tsx:73-83 | for chained closed segments, breaks plus the work before the last segment fill the time from the first start to the last start |
| `SessionCard.LiveDurationWithinTotal` | workflow-timer/components/SessionCard.tsx:48-69 | the longest live segment never exceeds the header's total |
| `SessionCard.CardCountsShortPause` | workflow-timer/components/SessionCard.tsx:76-81 | a 30-second pause counts as a break on the card but not in the day's break time with its one-minute threshold |
| `SessionCard.CardTrashedSegmentClosesGap` | workflow-timer/components/SessionCard.tsx:72-83 | a trashed segment lying in the gap still closes it on the card |
| `SegmentTimeline.RowAt` | components/Timeline.tsx:16-30 | a row is ongoing exactly for an open segment, lasts `(end or now) − start`, and shows a break marker exactly after a hard stop or a gap of at least a minute; the gap of a closed segment that is not last is the next segment's start minus its end (shown as the pause length after a hard stop), and the last row has no gap |
| `SegmentTimeline.Rows` | components/Timeline.tsx:16 | one row per stored segment, in order |
| `SegmentTimeline.RowGapIsCardGap` | components/Timeline.tsx:21-27 | a row's counted gap equals the gap the card counts after that segment |
| `SegmentTimeline.RowsSumToCardBreakTime` | components/Timeline.tsx:16-30 | summing the rows' counted gaps gives the card's break time |
| `SegmentTimeline.MarkerMeansMinuteBreak` | components/Timeline.tsx:30 | a break marker after a segment that is not a hard stop means the card counts a gap of at least a minute |
| `Calendar.SessionsOn` | workflow-timer/components/CalendarView.tsx:181 | every session created on that local day is kept, and no other |
| `Calendar.SessionsOnAppend` | workflow-timer/components/CalendarView.tsx:181 | the day filter keeps the stored order: it distributes over concatenation |
| `Calendar.OwnDailyTotal` | workflow-timer/components/CalendarView.tsx:185 | a session's daily total on its own creation day is its whole work total |
| `Calendar.DayWorkIsDailyTotal` | workflow-timer/components/CalendarView.tsx:183-186 | adding up the day's sessions one by one gives calculateDailyTotal over the whole list for that day |
| `Calendar.DaySpecMeaning` | workflow-timer/components/CalendarView.tsx:178-193 | a day's work is the day's total, its focus index lies in 0..100, its break time is not negative, and it counts no more tasks than there are sessions |
| `Calendar.DayRowOf` | workflow-timer/components/CalendarView.tsx:179-193 | the loop body computes the day's row: the summed work, break time, task count, pause count and focus index |
| `Calendar.SameDayAsDate` | workflow-timer/components/CalendarView.tsx:179-181 | the day filter keeps a session exactly when it was created on that local calendar date |
| `Calendar.MonthDailyStats` | workflow-timer/components/CalendarView.tsx:172-196 | one row per day of the month, the row of day `d` being that date's row |
| `Calendar.RowsAt` | workflow-timer/components/CalendarView.tsx:470-491 | the month's rows are the days 1..n in order |
| `Calendar.AddMonthDay` | workflow-timer/components/CalendarView.tsx:478-490 | one day of the monthly loop is one step of the accumulators: work and sessions always added, the focus index and a day with work only when the day has work, break time always |
| `Calendar.MonthlySummary` | workflow-timer/components/CalendarView.tsx:462-501 | work and task counts add up over every day, the focus average is over days with work only (0 without one), and break time adds up over every day |
| `Calendar.TallyBounds` | workflow-timer/components/CalendarView.tsx:468-486 | at most one active day per day, a focus sum of 0..100 per active day, and no negative break total |
| `Calendar.RowsWellFormed` | workflow-timer/components/CalendarView.tsx:470-491 | rows that are each well formed make a well-formed month |
| `Calendar.MonthDayMeaning` | workflow-timer/components/CalendarView.tsx:471-482 | the month loop's row of a day has that day's total as its work and a valid score |
| `Calendar.MonthRowsWellFormed` | workflow-timer/components/CalendarView.tsx:470-491 | every row of the month has a valid score and no negative break time |
| `Calendar.TallyWork` | workflow-timer/components/CalendarView.tsx:489 | the work accumulator adds up every day's work, active or not |
| `Calendar.WorkUpToIsSum` | workflow-timer/components/CalendarView.tsx:489 | rows whose work is a given per-day value add up to the sum of those values |
| `Calendar.MonthWorkIsDailyTotals` | workflow-timer/components/CalendarView.tsx:470-491 | the month's total is the sum of calculateDailyTotal over its days |
| `Calendar.DivMono` | workflow-timer/components/CalendarView.tsx:493 | dividing by the same positive count keeps order |
| `Calendar.RoundedAverageBounds` | workflow-timer/components/CalendarView.tsx:493 | the rounded average of scores of 0..100 is itself in 0..100 |
| `Calendar.FocusAverageBounds` | workflow-timer/components/CalendarView.tsx:493 | the focus average of valid day scores is a valid score |
| `Calendar.MonthlyFocusInRange` | workflow-timer/components/CalendarView.tsx:462-503 | the month's focus average always lies in 0..100 |
| `Calendar.SelectedDateStats` | workflow-timer/components/CalendarView.tsx:505-529 | zeros without a selected date; otherwise the day's total over the shown sessions, the break time and score of the sessions created that day, a score in 0..100, and a record exactly when there was work |
| `Civil.DaysInMonth` | workflow-timer/components/CalendarView.tsx:172 | a month has 28 to 31 days |
| `Civil.Normalize` | workflow-timer/components/MiniCalendar.tsx:45 | a month index outside 0..11 rolls into the neighbouring year, and an in-range one is kept |
| `Civil.Weekday` | workflow-timer/components/CalendarView.tsx:173 | `getDay()` is 0..6 |
| `Civil.DivStep4` | workflow-timer/components/CalendarView.tsx:172 | the count of multiples of 4 up to y grows by one exactly at a multiple of 4 |
| `Civil.DivStep100` | workflow-timer/components/CalendarView.tsx:172 | the same for multiples of 100 |
| `Civil.DivStep400` | workflow-timer/components/CalendarView.tsx:172 | the same for multiples of 400 |
| `Civil.LeapDivisors` | workflow-timer/components/CalendarView.tsx:172 | a multiple of 400 is a multiple of 100, which is a multiple of 4 |
| `Civil.YearStartStep` | workflow-timer/components/CalendarView.tsx:179 | consecutive New Year's days are a year length apart |
| `Civil.YearStartClosedForm` | workflow-timer/components/CalendarView.tsx:179 | New Year's day is 365 days a year plus one per leap year since 1970 |
| `Civil.LeapStep` | workflow-timer/components/CalendarView.tsx:172 | one more leap year is counted exactly after a leap year |
| `Civil.MonthOffsetStep` | workflow-timer/components/CalendarView.tsx:172 | the months tile the year: each starts where the previous ends |
| `Civil.DayZeroIsLastDay` | workflow-timer/components/CalendarView.tsx:172 | day 0 of the next month is the last day of this one, which is how its length is read |
| `Civil.NextMonthStart` | workflow-timer/components/MiniCalendar.tsx:54 | the first of the next month follows this month's last day |
| `Civil.DayNumberMonotone` | workflow-timer/components/CalendarView.tsx:179 | real dates are numbered in calendar order |
| `Civil.MonthPrefixBound` | workflow-timer/components/CalendarView.tsx:172 | a month ends within its year |
| `Civil.MonthOffsetGrows` | workflow-timer/components/CalendarView.tsx:172 | a later month starts after an earlier one ends |
| `Civil.YearStartMonotone` | workflow-timer/components/CalendarView.tsx:179 | later years start later |
| `Civil.DayNumberInjective` | workflow-timer/components/CalendarView.tsx:179 | two real dates share a day number only if they are the same date |
| `Civil.EpochIsThursday` | workflow-timer/components/CalendarView.tsx:173 | 1970-01-01 is day 0, a Thursday |
| `Civil.DayTwentyThousand` | workflow-timer/components/CalendarView.tsx:173 | 2024-10-04 is day 20000, a Friday |
| `Civil.Pow10` | utils.ts:217-220 | a power of ten is at least 1 |
| `Civil.Fixed` | utils.ts:217-220 | a zero-padded field has exactly its width |
| `Civil.DateStr` | utils.ts:217-220 | the local date string is ten characters with dashes at positions 4 and 7 |
| `Civil.StrLessConcat` | workflow-timer/components/MiniCalendar.tsx:70 | strings with equal-length heads compare by their heads first |
| `Civil.ConcatEq` | workflow-timer/components/MiniCalendar.tsx:68-69 | strings with equal-length heads are equal exactly when heads and tails are |
| `Civil.FixedOrder` | workflow-timer/components/MiniCalendar.tsx:70 | fixed-width digit strings compare, and are equal, as their numbers are |
| `Civil.MonthDayOrder` | workflow-timer/components/MiniCalendar.tsx:70 | the "MM-DD" tails compare in month-then-day order |
| `Civil.DateStrOrder` | workflow-timer/components/MiniCalendar.tsx:70 | date strings compare, and are equal, in calendar order |
| `Civil.DateStrLessIffEarlier` | workflow-timer/components/MiniCalendar.tsx:70 | a date string is less than another exactly when its day number is smaller |
| `MiniCalendar.CalendarDays` | workflow-timer/components/MiniCalendar.tsx:29-39 | the grid holds one blank per weekday before the first, then the date string of each day of the month in order |
| `MiniCalendar.Grid` | workflow-timer/components/MiniCalendar.tsx:35-37 | the two filling loops yield exactly `blanks` empty cells followed by one date string per day of the month, in day order |
| `MiniCalendar.GridColumnIsWeekday` | workflow-timer/components/MiniCalendar.tsx:36-37 | the cell of day `d` falls in the column of its weekday |
| `MiniCalendar.GridDatesIncrease` | workflow-timer/components/MiniCalendar.tsx:37 | later cells hold later dates, as strings and as day numbers |
| `MiniCalendar.NavigationInverse` | workflow-timer/components/MiniCalendar.tsx:45-54 | going back a month and then forward, or forward and then back, returns to the same month |
| `MiniCalendar.NextMovesOneMonth` | workflow-timer/components/MiniCalendar.tsx:54 | › moves forward by the length of the shown month |
| `MiniCalendar.PrevMovesOneMonth` | workflow-timer/components/MiniCalendar.tsx:45 | ‹ moves back by the length of the month it lands on |
| `MiniCalendar.Flags` | workflow-timer/components/MiniCalendar.tsx:68-73 | a cell is in range exactly when both ends are chosen and it lies strictly between them as strings; it is selected exactly when no end is chosen and it is the start |
| `MiniCalendar.InRangeIsStrictlyBetween` | workflow-timer/components/MiniCalendar.tsx:68-73 | for real dates the band covers exactly the days strictly between the ends and never an end, and the single-select mark is off |
| `Overview.MidpointWithin` | workflow-timer/components/CalendarView.tsx:53 | the midpoint of a forward segment after the epoch lies inside it |
| `Overview.HourOf` | workflow-timer/components/CalendarView.tsx:54 | `getHours()` is a local hour 0..23 |
| `Overview.MidHour` | workflow-timer/components/CalendarView.tsx:52-55 | a segment's bucket is an hour 0..23 |
| `Overview.Buckets` | workflow-timer/components/CalendarView.tsx:41-55 | 24 buckets, bucket `h` holding the live work whose midpoint falls in hour `h` |
| `Overview.FirstStart` | workflow-timer/components/CalendarView.tsx:58 | the earliest start of a live segment, attained by one, or MAX_SAFE_INTEGER when there is none |
| `Overview.LastEnd` | workflow-timer/components/CalendarView.tsx:59 | the latest `end or now` of a live segment, attained by one, or 0 when none is positive |
| `Overview.PositiveTotal` | workflow-timer/components/CalendarView.tsx:62-63 | the total, counting only sessions with positive work, is never negative |
| `Overview.LongestOf` | workflow-timer/components/CalendarView.tsx:64-67 | the longest session's work bounds every session's work; it is "-" at 0 and otherwise the first session with that work |
| `Overview.LongestPrefix` | workflow-timer/components/CalendarView.tsx:64-67 | a later session that is not strictly longer does not displace the first longest one |
| `Overview.PrimeHourUnique` | workflow-timer/components/CalendarView.tsx:72-79 | the prime hour is unique |
| `Overview.PrimeHour` | workflow-timer/components/CalendarView.tsx:72-79 | the scan returns the first hour of greatest activity, or 0 when no hour has any |
| `Overview.DailyOverview` | workflow-timer/components/CalendarView.tsx:31-97 | nothing without sessions; otherwise the positive total, its average over all sessions, the longest session, the prime hour of the buckets, its label and the active range from the first start to the last end when a live segment exists |
| `Overview.AddSegments` | workflow-timer/components/CalendarView.tsx:46-60 | one session's loop adds its live work to the session's duration, to the first start and last end, and to the midpoint buckets |
| `Overview.AddSegment` | workflow-timer/components/CalendarView.tsx:47-59 | a trashed segment changes nothing; a live one adds its duration to its midpoint's bucket and widens the range |
| `Overview.FirstStartSnoc` | workflow-timer/components/CalendarView.tsx:58 | a live segment that starts earlier lowers the first start; nothing else does |
| `Overview.LastEndSnoc` | workflow-timer/components/CalendarView.tsx:59 | a live segment that ends later raises the last end; nothing else does |
| `Overview.BucketSnoc` | workflow-timer/components/CalendarView.tsx:55 | a live segment adds its duration to exactly its midpoint's bucket |
| `Overview.HourSumSnoc` | workflow-timer/components/CalendarView.tsx:55 | appending a segment adds its duration to the sum of the buckets that hold its hour |
| `Overview.HourSumEmpty` | workflow-timer/components/CalendarView.tsx:41 | buckets start at zero |
| `Overview.BucketsPartitionWork` | workflow-timer/components/CalendarView.tsx:41-55 | the 24 buckets together hold exactly the live work of the segments |
| `Overview.AllSegmentsWork` | workflow-timer/components/CalendarView.tsx:43-69 | when no session's work is negative, the work of all segments is the positive total |
| `Overview.BucketsSumToTotal` | workflow-timer/components/CalendarView.tsx:41-69 | the prime-time buckets add up to the overview's total |
| `Overview.LongestBoundsTotal` | workflow-timer/components/CalendarView.tsx:62-82 | the longest session is at most the total, and the total at most the number of sessions times the longest, so the average never exceeds the longest |
| `Overview.TotalStep` | workflow-timer/components/CalendarView.tsx:62-67 | one more session keeps the total within the sessions times the longest |
| `Overview.RangeShownIffLiveSegment` | workflow-timer/components/CalendarView.tsx:85-87 | the range is shown exactly when some live segment exists, for starts below MAX_SAFE_INTEGER |
| `StatsDashboard.RangeBounds` | components/StatsDashboard.tsx:92-111 | yesterday is exactly yesterday's whole local day; the week and month ranges start at local midnight 6 and 29 days back and end now; all runs from the oldest session (the last of the history, or now when it is empty) to now; custom runs from local midnight of the chosen first day to 23:59:59.999 of the chosen last day, read as local dates (see Findings), and a missing bound is now |
| `StatsDashboard.LocalDayOfDayStart` | components/StatsDashboard.tsx:96-104 | local midnight of a day lies on that day |
| `StatsDashboard.CustomRangeCoversChosenDays` | components/StatsDashboard.tsx:108-110 | read as local dates, a custom range runs from the first chosen day to the last millisecond of the last one |
| `StatsDashboard.AsWrittenAgreesEastOfUtc` | components/StatsDashboard.tsx:108-110 | at or east of UTC the code as written starts on the chosen day and ends where the intended range ends |
| `StatsDashboard.AsWrittenShiftsWestOfUtc` | components/StatsDashboard.tsx:108-110 | at UTC-5 the code as written charts 2024-10-03 .. 2024-10-05 when 2024-10-04 .. 2024-10-06 was picked |
| `StatsDashboard.ChartRowOf` | components/StatsDashboard.tsx:144-153 | a chart row's total is its work plus its break time |
| `StatsDashboard.ChartRows` | components/StatsDashboard.tsx:144-153 | one chart row per day |
| `StatsDashboard.ChartRowsBalance` | components/StatsDashboard.tsx:144-153 | every chart row is its day's row and shows work plus break as its total |
| `StatsDashboard.Divisor` | components/StatsDashboard.tsx:159 | `activeWorkDays \|\| 1` is at least 1 |
| `StatsDashboard.Aggregate` | components/StatsDashboard.tsx:113-171 | one row per local day from the start's midnight while that midnight is not after the end, at most 365; the rows, summary and averages are those of exactly those days |
| `StatsDashboard.DashDayRow` | components/StatsDashboard.tsx:121-134 | the row computed at the loop's current midnight is the row of the next local day, so the rows so far stay exactly the rows of the first days |
| `StatsDashboard.AddChartDay` | components/StatsDashboard.tsx:131-153 | a day with work adds to the active-day count, work, focus sum, sessions and pauses; break time is added on every day; the row is pushed |
| `StatsDashboard.Totals` | components/StatsDashboard.tsx:159-171 | the summary and the per-active-day averages of the accumulators, dividing by 1 when no day had work |
| `StatsDashboard.DashTallyBounds` | components/StatsDashboard.tsx:135-142 | at most one active day per row, a focus sum of 0..100 per active day, and no negative break total |
| `StatsDashboard.AvgFocusInRange` | components/StatsDashboard.tsx:159-166 | the average focus score of well-formed days lies in 0..100 |
| `StatsDashboard.DashDaysWellFormed` | components/StatsDashboard.tsx:113-157 | every row of the loop has a valid score and no negative break time |
| `StatsDashboard.DashboardFocusInRange` | components/StatsDashboard.tsx:113-166 | the dashboard's average focus score is a valid index whatever the range |
| `StatsDashboard.DashDayMeaning` | components/StatsDashboard.tsx:117-130 | the loop's row for a day has that local day's total as its work, a valid score and no negative break time |
| `StatsDashboard.ChartTotalsMatchSummary` | components/StatsDashboard.tsx:135-153 | when no day's work is negative, the chart's totals add up to the summary's work plus break time |
| `StatsDashboard.DashboardAgreesWithCalendar` | components/StatsDashboard.tsx:135-142 | over the same days the dashboard and the calendar agree on active days, focus sum and break total; the dashboard counts no more sessions, and the same work when no day's work is negative |
| `StatsDashboard.MaxWithOne` | components/StatsDashboard.tsx:173-183 | `Math.max(...values, 1)`: at least 1, bounds every value, and is 1 or one of them |
| `StatsDashboard.MaxChartValue` | components/StatsDashboard.tsx:173-183 | the scale is 1 without data, 100 for the focus chart, and otherwise `Math.max(...values, 1)`: at least 1 and every bar's value, and equal to 1 or to one bar's value |
| `StatsDashboard.BarsFitTheScale` | components/StatsDashboard.tsx:173-183 | every bar's height ratio is at most 1 |
| `StatsDashboard.RangeSelectOrdered` | components/StatsDashboard.tsx:196-206 | after any click a chosen end is never before the start |
| `StatsDashboard.TwoClicks` | components/StatsDashboard.tsx:196-206 | two clicks from an empty or complete range select the two dates in order |
| `StatsDashboard.TodayIsTodaysRow` | components/StatsDashboard.tsx:73-90 | today's card shows the same numbers as the chart's row for today |
| `SessionEdits.NewSessionElapsed` | App.tsx:743-746 | a new session has one open segment, so it has run exactly as long as the time since it started, and it always has a group |
| `SessionEdits.ResumeAddsRunningTime` | App.tsx:748-752 | resuming keeps every old segment and adds the time since the resume to the total |
| `SessionEdits.PauseFreezesTotal` | App.tsx:766-779 | after a pause no segment is open, only the last one changed, and the total at any later time is the total at the pause |
| `SessionEdits.ClosedTotalIgnoresNow` | App.tsx:773 | with every segment closed the total does not depend on the clock |
| `SessionEdits.StopMarksLastHardStop` | App.tsx:470-482 | stopping while running, or while paused with a closed last segment, closes the last segment and marks it hard-stop, and changes no other |
| `SessionEdits.StopTotal` | App.tsx:470-487 | stopping from pause changes no total; stopping while running freezes the total at the stop |
| `SessionEdits.ArchivedKeepsTotal` | App.tsx:855-863 | a session finished while running keeps the time it had at the finish; otherwise its segments are kept as they were |
| `SessionEdits.ContinueKeepsWork` | App.tsx:901-939 | a continuation keeps group and memo and starts from zero; a reopened session keeps its id and segments and adds the time since the resume |
| `SessionEdits.TrashLastLeavesNoWork` | App.tsx:995-1000 | trashing the only live work segment leaves no live work at all |
| `SessionEdits.LiveWorkCountUpdate` | App.tsx:995-999 | replacing one segment changes the live work count by exactly the difference |
| `SessionEdits.RestoreUndoesTrash` | App.tsx:1057-1069 | restoring a segment that was just trashed gives back the original list |
| `SessionEdits.TrashAndRestoreTotals` | App.tsx:996-997 | trashing a segment takes its time off the total |
| `SessionEdits.TotalDurationIsSum` | utils.ts:36-45 | the total is the sum of the live durations, so it survives a reordering |
| `SessionEdits.DeleteBreakKeepsWork` | App.tsx:1028-1039 | deleting a break files exactly one marker, keeps every segment, orders the list by start and leaves the work total unchanged |
| `SessionEdits.RemoveAtMultiset` | App.tsx:1063 | removing one element takes exactly that element out of the multiset |
| `SessionEdits.RestoreUndoesDeleteBreak` | App.tsx:1060-1064 | restoring the marker of a deleted break gives back the old segments, as a multiset |
| `History.ParseIntMeaning` | App.tsx:732-735 | the last word counts as the number `n` exactly when it is the rendering of `n` |
| `History.ParseNegativeMeaning` | App.tsx:734-735 | a word reads as the negative number `-m` exactly when it is '-' followed by the rendering of `m` |
| `History.ParseNonNegativeMeaning` | App.tsx:734-735 | a word reads as `n >= 0` exactly when it is the rendering of `n` |
| `History.NameSuffixMeaning` | App.tsx:731-735 | a name carries the number `n` exactly when it is the base name, a space and `${n}` |
| `History.MaxSuffix` | App.tsx:729-739 | `maxNum` is never negative |
| `History.MaxSuffixBounds` | App.tsx:729-739 | every number in the history is at most `maxNum`, and `maxNum` is 0 or one of them |
| `History.AutoName` | App.tsx:724-741 | the loop over the history yields `StartName`: the trimmed input, unless it is blank or the bare base name, in which case the base name numbered one past the largest number in the history |
| `History.MaxNumber` | App.tsx:729-738 | the loop over the history ends with the largest number any name carries as the base name, a space and that number, or 0 |
| `History.AutoNameIsFresh` | App.tsx:740 | the numbered name is not the name of any session in the history |
| `History.ReplaceById` | App.tsx:905 | `prev.map(s => s.id === id ? updated : s)`: same length, each session with that id replaced and every other kept |
| `History.RemoveById` | App.tsx:1100 | a session stays exactly when its id differs |
| `History.ActiveOf` | App.tsx:152 | activeHistory holds exactly the sessions not in the trash |
| `History.TrashOf` | App.tsx:153 | deletedHistory holds exactly the sessions in the trash |
| `History.ActiveAndTrashPartition` | App.tsx:152-153 | every session is either active or in the trash, never both |
| `History.TrashThenRestoreSession` | App.tsx:979-982 | moving a history session to the trash and restoring it gives the history back, when ids are unique |
| `History.EmptyTrashIdempotent` | App.tsx:1107-1112 | after emptying the trash none is left, and emptying it again changes nothing |
| `History.MatchesDateMeaning` | App.tsx:1175-1182 | read as local dates, a session matches exactly when its local date lies between the chosen dates |
| `History.MatchesDateAsWrittenEastOfUtc` | App.tsx:1175-1182 | at or east of UTC the test as written gives the same answer |
| `History.MatchesDateAsWrittenShiftsWestOfUtc` | App.tsx:1175-1182 | at UTC-5 the test as written keeps a session from the day before a one-day range |
| `History.Filtered` | App.tsx:1168-1184 | a session is kept exactly when it matches the search, the group and the dates, the dates read as local dates (the corrected reading, see Findings) |
| `History.FilteredHistoryMembers` | App.tsx:1166-1185 | the list holds exactly the matching sessions that are current or not in the trash, with the chosen dates read as local dates (the corrected reading, see Findings) |
| `History.EmptySearchMatchesAll` | App.tsx:1169 | an empty search matches every name |
| `History.FindDay` | App.tsx:1192 | the first group of that day, or past the end when there is none |
| `History.AddSessionKeeps` | App.tsx:1189-1199 | one step of the forEach keeps one complete group per day seen |
| `History.AddSessionCollects` | App.tsx:1192-1198 | after one step the groups' days stay distinct and each group still holds exactly its day's sessions and their summed time |
| `History.AddSessionFinds` | App.tsx:1192-1196 | after one step every session seen so far, the new one included, finds its day's group |
| `History.CollectMeaning` | App.tsx:1189-1199 | after the forEach there is one group per day, each holding exactly that day's sessions in order and their summed time |
| `History.OnDayAbsent` | App.tsx:1192-1196 | a day with no group yet has no sessions so far |
| `History.OnDayNone` | App.tsx:1192-1196 | a day that no session falls on has no sessions |
| `History.WithBreaks` | App.tsx:1200-1202 | setting break times keeps one group per day |
| `History.CollectGroups` | App.tsx:1189-1199 | the forEach builds exactly the groups of `Collect`: each session is added to its day's group, opened at the end the first time the day is seen |
| `History.FindGroup` | App.tsx:1191 | the search over the groups stops at the first group of the session's day, or at the end when there is none |
| `History.SetBreakTimes` | App.tsx:1200-1202 | every group gets the break time of its own sessions; nothing else changes |
| `History.GroupedHistory` | App.tsx:1187-1204 | the grouped history is the collected groups with their break times, newest day first |
| `History.GroupedHistoryMeaning` | App.tsx:1187-1204 | newest work day first, one group per day; each group holds exactly its day's sessions in order, their summed time and their break time; every session appears under its own day |
| `History.WithBreaksMeaning` | App.tsx:1200-1202 | each group's break time is calculateBreakTime over its own sessions with the day start hour |
| `AppState.App.constructor` | App.tsx:41-70 | the saved status or idle, the saved history and session, the first saved group or '1', the saved session's name, and an empty date range |
| `AppState.App.Start` | App.tsx:713-764 | while running nothing changes; from idle (or with no session) a new session under the auto name; from pause or stop the current session resumed; the timer then runs with a ticking session |
| `AppState.App.Pause` | App.tsx:766-779 | only while running with a session: it stops ticking with its last segment closed and the timer is paused; the status invariant is kept |
| `AppState.App.StopWithoutBreak` | App.tsx:461-491 | nothing when idle; otherwise the session stops ticking with its last segment marked hard-stop and the status is 'stopped' |
| `AppState.App.CompleteSession` | App.tsx:855-883 | the archived session goes to the front of the history, the timer is idle and the name field empty; nothing without a session |
| `AppState.App.ContinueSession` | App.tsx:885-954 | when not idle or the session is not found nothing changes; otherwise on another work day the old session is marked completed and a continuation runs, on the same day it leaves the history and is reopened, and the name input and group follow the new session |
| `AppState.App.RemoveHold` | App.tsx:956-965 | a history session with that id is marked completed; nothing else changes |
| `AppState.App.DeleteRequest` | App.tsx:967-988 | the current session is dropped unless the timer is running or paused; a history session is moved to the trash |
| `AppState.App.DeleteSegment` | App.tsx:990-1026 | the segment goes to the trash; when it was the last live work segment the current session is dropped (idle) or the history session goes to the trash too |
| `AppState.App.DeleteBreak` | App.tsx:1028-1055 | the gap's marker is filed into the current or history session with that id |
| `AppState.App.RestoreSegment` | App.tsx:1057-1086 | the segment leaves the trash, in the current or history session with that id |
| `AppState.App.RestoreSession` | App.tsx:1088-1096 | the history session leaves the trash |
| `AppState.App.PermanentDeleteSession` | App.tsx:1098-1105 | every session with that id leaves the history |
| `AppState.App.EmptyTrash` | App.tsx:1107-1112 | only sessions outside the trash are kept |
| `AppState.App.CalendarDayClick` | App.tsx:551-561 | the history's date range follows the two-click rule of the dashboard |
| `Trash.EntriesUpToMeaning` | components/TrashModal.tsx:39-43 | a session's rows are exactly its trashed segments, each naming its index |
| `Trash.CollectEntriesMeaning` | components/TrashModal.tsx:39-43 | the collected rows are exactly the trashed segments of the sessions |
| `Trash.DeletedSegmentsMeaning` | components/TrashModal.tsx:39-43 | every row is a trashed segment located at the session and index it names, every trashed segment is listed, newest deletion first; the rows are a permutation of the collected rows, one per trashed segment |
| `Trash.EntriesUpToCount` | components/TrashModal.tsx:39-43 | a session gives one row per trashed segment |
| `Trash.CollectEntriesCount` | components/TrashModal.tsx:117 | the tab's count is the number of trashed segments of the sessions |
| `Trash.ListedSessions` | components/TrashModal.tsx:139 | the trashed sessions as listed are a permutation, newest deletion first |
| `Trash.LabelGroup` | components/TrashModal.tsx:140 | the first group with the session's group id (no earlier group has it), else '미지정' in slate |
| `Trash.UnknownGroupIsSlate` | components/TrashModal.tsx:140 | a session whose group is gone is labelled '미지정' with the slate classes |
| `Trash.ShownDurationSplit` | components/TrashModal.tsx:156 | the shown duration is the work total plus the time of the trashed segments |
| `Trash.SpanSplit` | components/TrashModal.tsx:156 | the span sum splits into live work and trashed time |
| `Trash.ShownDurationWithoutTrash` | components/TrashModal.tsx:156 | with nothing in the segment trash the shown duration is the work total |
| `Trash.NoTrashedTime` | components/TrashModal.tsx:156 | no trashed segment, no trashed time |
| `Settings.ChangeTouchesOnlyKey` | workflow-timer/components/SettingsModal.tsx:186-189 | after `{ ...prev, [key]: value }` the key reads the new value and every other key its old one |
| `Settings.SettingsByKeys` | workflow-timer/components/SettingsModal.tsx:186-189 | settings that agree on every key are equal, so a change is fixed by what it does per key |
| `Settings.ChangeToCurrentValueIsIdentity` | workflow-timer/components/SettingsModal.tsx:186-189 | writing back a key's current value leaves the settings unchanged |
| `Settings.IntervalOptions` | workflow-timer/components/SettingsModal.tsx:35 | 24 options, ascending, option `i` being `(i + 1) * 5` |
| `Settings.IntervalOptionsMeaning` | components/SettingsModal.tsx:31 | a minute value is offered exactly when it is a multiple of five from 5 to 120 |
| `Settings.HourOptions` | workflow-timer/components/SettingsModal.tsx:95 | 24 options, option `i` being `i` |
| `Settings.HourOptionsMeaning` | components/SettingsModal.tsx:91 | an hour is offered exactly when it lies in 0..23 |
| `Settings.CheckUpload` | workflow-timer/components/SettingsModal.tsx:223-256 | the file is read exactly when it is at most 1 MiB and its type starts with 'audio/'; larger files are refused first, whatever their type |
| `Settings.SettingsAfterUpload` | components/SettingsModal.tsx:202-235 | a file refused for size or type, a file the decoder cannot read and a file longer than 20 seconds all leave the settings alone; a read file of at most 20 seconds becomes the custom sound and nothing else changes |
| `Settings.AddGroup` | workflow-timer/components/SettingsModal.tsx:264-274 | a blank name adds nothing; otherwise exactly one group, with the trimmed name, is appended after the old ones |
| `Settings.AddedNameIsTrimmed` | workflow-timer/components/SettingsModal.tsx:265-269 | an added group's name is non-empty and starts and ends with a non-space |
| `Settings.ColorIndex` | workflow-timer/components/SettingsModal.tsx:276 | findIndex over COLORS: the key's position, or -1 exactly when the key is not one of them |
| `Settings.NextColor` | workflow-timer/components/SettingsModal.tsx:276-277 | the colour selected after an add is always a key of COLORS |
| `Settings.KeyIndex` | workflow-timer/components/SettingsModal.tsx:174-182 | every key of COLORS is found at its own position |
| `Settings.NextColorOfKey` | workflow-timer/components/SettingsModal.tsx:276-277 | after a key of COLORS comes the following key, the last wrapping to the first; after an unknown key comes blue |
| `Settings.ColorForCount` | components/SettingsModal.tsx:246 | the colour for a new group is always one of the seven |
| `Settings.ColorForCountCycle` | components/SettingsModal.tsx:246 | two group counts get the same colour exactly when they differ by a multiple of seven |
| `Settings.AddGroupByCount` | components/SettingsModal.tsx:243-255 | the older add is the newer one with the colour picked by the group count |
| `Settings.WithoutGroup` | workflow-timer/components/SettingsModal.tsx:285 | exactly the groups whose id differs, in order |
| `Settings.WithoutGroupAppend` | components/SettingsModal.tsx:262 | the filter distributes over concatenation, so the remaining groups keep their order |
| `Settings.WithoutAbsentGroup` | components/SettingsModal.tsx:262 | deleting an id no group has changes nothing |
| `Settings.DeleteGroup` | workflow-timer/components/SettingsModal.tsx:280-287 | refused exactly when at most one group is left; otherwise the remaining groups are those with another id |
| `Settings.SaveEditingGroup` | workflow-timer/components/SettingsModal.tsx:296-303 | ids and length kept; the edited group gets the trimmed name and chosen colour, and only when an id is chosen and the name is not blank; every other group is unchanged |
| `Settings.SaveRenamedGroup` | components/SettingsModal.tsx:271-278 | ids, colours and length kept; only the edited group's name changes, to the trimmed name |
| `Settings.RenameIsEditKeepingColor` | components/SettingsModal.tsx:271-278 | the older rename is the newer edit with the group's own colour chosen |
| `Settings.SaveEditingIdempotent` | workflow-timer/components/SettingsModal.tsx:296-303 | saving the same edit twice is saving it once |

## Left out

- Persistence (Firebase, localStorage), timers and intervals, notifications, audio playback, toasts, the media session and `Notification.requestPermission` are I/O. The state they load or save is a parameter or a field.
- JavaScript's treatment of 0 as a missing timestamp in `||` and `?:` is not modelled: an end or deletion time is an `Option`, and only its presence is checked.
- Daylight-saving changes are not modelled: the local offset is a fixed parameter for the whole computation.
- Date strings (`YYYY-MM-DD`) are modelled as day numbers; their text format and parsing are not modelled.
- Locale-dependent labels (`toLocaleDateString`, weekday names) and `formatCompactValue` are not modelled.
- Settings.SettingsAfterUpload: the audio decoder is a parameter (the decoded length in seconds, or None when it reports an error); decoding itself is not modelled.
- `generateId` is replaced by an id parameter, and the CSV export (`downloadCSV`) is left out because it is I/O.
- History.AutoName: numbers are unbounded integers, so names whose number exceeds 2^53 (where `parseInt` loses precision) are not modelled.
- AppState.App.StopWithoutBreak: on a session with no segments the source would index `segments[-1]`; the model leaves such a session's segments unchanged.
- Text.LowerAscii: `toLowerCase` is modelled on ASCII letters only.
- Text.StrLess: compares strings by code point, where JavaScript's `<` compares UTF-16 code units; the two orders differ only between a character above U+FFFF and one in U+E000..U+FFFF.
- Timetable.MinFirstStart: requires every session to have a segment. On a session without one the source reads `segments[0].start` of nothing and throws.
- Timetable.MaxEnd: requires every session to have a segment. The source's `Math.max()` of no ends is -Infinity.
- Timetable.Window: requires every session to have a segment, for the two reasons above.
- Timetable.TimelineData: requires every session to have a segment, because its window does; the source throws on a session without one.
- StatsDashboard.RangeBounds: the custom range uses the corrected local-date reading (`CustomBounds`); the code as written is `StatsDashboard.CustomBoundsAsWritten`, and the two are compared under Findings.
- History.Filtered: uses the corrected local-date reading of the date range (`MatchesDate`); the test as written is `History.MatchesDateAsWritten`, and the two are compared under Findings.
- History.FilteredHistoryMembers: states the list under the same corrected local-date reading.
- AppState.App.DeleteSegment: requires the segment index to be in range. The source is only called with indices it rendered.
- AppState.App.RestoreSegment: requires the segment index to be in range, for the same reason.
- The displayed `elapsedTime` state is not a field. It is always the current session's total, which `Metrics.TotalDuration` gives.
- UI-only state (open dialogs, popovers, input focus, drag state) is left out.
- Settings.NextColorOfKey: the colour rotation is proved one step at a time, not as a seven-step cycle.
- Trash.ListedSessions: the source sorts the trashed-session array in place; the model returns the sorted list as a value.
- A timetable slice keeps the milliseconds its duration label shows, not the label text. `Format.FormatDuration` models the formatting, and its round trip is proved there.
- SVG geometry (arc paths, bar heights in pixels) is left out. Only the numbers the geometry is drawn from are modelled.

## Findings

| source | as written | input that shows it | evidently intended | confidence | as-written member | corrected member |
|---|---|---|---|---|---|---|
| components/StatsDashboard.tsx:108-110 | `new Date(customRange.start)` parses a `YYYY-MM-DD` string as midnight UTC; the end is then moved to 23:59:59.999 of the local day of that instant | time zone UTC-5, range 2024-10-04 .. 2024-10-06: the chart covers 2024-10-03 .. 2024-10-05 | the range covers the chosen local days | not executed | `StatsDashboard.CustomBoundsAsWritten`, shown by `StatsDashboard.AsWrittenShiftsWestOfUtc` | `StatsDashboard.CustomBounds`, proved by `StatsDashboard.CustomRangeCoversChosenDays` |
| App.tsx:1175-1182 | the history date filter parses both chosen dates as midnight UTC and then applies `setHours` in local time | time zone UTC-5, range 2024-10-04 .. 2024-10-04: a session from noon on 2024-10-03 is kept | a session matches when its local date lies between the chosen dates | not executed | `History.MatchesDateAsWritten`, shown by `History.MatchesDateAsWrittenShiftsWestOfUtc` | `History.MatchesDate`, proved by `History.MatchesDateMeaning` |
