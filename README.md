# YIP SHING project status dashboard: a Dafny model of its rules

The dashboard is a single Streamlit script, `timeline_test.py`. It loads a table of
manufacturing projects, filters it by project type, year and lead-time month, counts
the remaining projects by type and draws one progress bar per project. Each bar has a
completion percentage, a colour and an optional KTA38 engine icon. Under the bars it
lists every project whose delivery date is blank or later than its lead time.

This project models the rules behind those views as Dafny code and proves what they
promise:

- `rows.dfy` (`Rows`): the typed project record and the loaded table. A date is
  `(year, month, day)`, ordered lexicographically. Every cell that pandas may leave
  as NaN/NaT is an `Option`, including `Year`: a row with a blank Year never passes
  the year filter, but it can still appear among the reminders. The table records which
  columns it has.
- `seqs.dfy` (`Seqs`): selection by a boolean mask (`df[mask]`), which keeps rows
  in file order. It comes with a subsequence predicate and the composition lemmas
  the filters need.
- `progress.dfy` (`Progress`): the per-row progress calculator. It is an imperative
  method: the accumulator starts at 0, each met milestone adds its weight (30/40/10/10/10),
  meeting all five forces 100, and `min(..., 100)` caps the result. The method is proved
  against `WeightedSum`, the sum of the weights of the met milestones.
- `colour.dfy` (`Colour`): the colour ladder as written, with exact integer
  arithmetic. A separate lemma ties it to an anchor table interpolated piecewise-linearly.
- `filtering.dfy` (`Filtering`): the type, year and month filter, stage by stage, as
  the script runs it. It is proved equal to one mask over the whole table.
- `reminders.dfy` (`Reminders`): the delivery-date reminder over the whole table.
- `counts.dfy` (`Counts`): the total and the per-type counts (`value_counts`).
- `tag.dfy` (`Tag`): the KTA38 description test. It strips surrounding whitespace
  (the exact whitespace set of Python's `str.strip()`), removes LF and CR,
  upper-cases, then searches for the marker.
- `dashboard.dfy` (`Dashboard`): the loop over the filtered rows that yields a
  progress line (name, percentage, colour, tag) per row, and the whole view of one run.

Today's date is a parameter: the script reads `datetime.now()`.

Three behaviours of the script that the model follows as written:

- The per-type counts come from pandas `value_counts`. It orders types by count, not by
  first appearance, and it skips rows with no type. So the counts form an unordered map,
  and they add up to the number of rows that have a type. That equals the total only
  when every row has one.
- The empty result for a missing `Year` or `Lead_Time` column is modelled as written
  (`FilterRows` returns no rows). In the script this branch cannot run, because
  `load_data` already refuses a file without those columns (timeline_test.py:160-165).
- On the 70–80 % range the script keeps the green channel at 255 instead of
  interpolating it toward 205. Only 70 % falls in that range among the percentages the
  calculator produces, and there both agree. So `ColourIsInterpolation` holds for every
  reachable percentage.

## Model

| member | source | states |
|---|---|---|
| Progress.WeightedSum | timeline_test.py:281-336 | the sum of the weights (30/40/10/10/10) of the met milestones is a multiple of ten in 0..100; it is 100 exactly when all five are met and 0 exactly when none is |
| Progress.ProgressOf | timeline_test.py:279-336 | the percentage of a row on a given day; `ComputeProgress` is proved to compute it, and `ProgressInRange`, `ProgressExtremes` and `ProgressMonotone` state its properties |
| Progress.ComputeProgress | timeline_test.py:280-336 | the accumulated percentage equals the sum of the weights of the met milestones; a date milestone is met iff its date is present and not after today; cleaning is met iff the cell is exactly "YES"; the result is a multiple of 10 in 0..100; all met gives 100, none met gives 0 |
| Progress.ProgressInRange | timeline_test.py:281-336 | every percentage is a multiple of ten between 0 and 100 |
| Progress.ProgressExtremes | timeline_test.py:332-336 | the percentage is 100 exactly when all five milestones are met, and 0 exactly when none is |
| Progress.DateMetMonotone | timeline_test.py:285-288 | a date milestone met today stays met on any later day |
| Progress.ProgressMonotone | timeline_test.py:279-336 | with the row fixed, the percentage never decreases as today advances |
| Colour.Channel | timeline_test.py:343-369 | one interpolated channel lies between its two end values and equals them at the ends of its range |
| Colour.ColourOf | timeline_test.py:339-372 | every channel of the bar colour is in 0..255; 0 % is grey #e0e0e0 and 100 % is blue #0000ff |
| Colour.ColourIsInterpolation | timeline_test.py:338-372 | for every reachable percentage, the ladder equals piecewise-linear interpolation over the anchors 0, 30, 70, 80, 90, 100 |
| Colour.ColourAtAnchors | timeline_test.py:339-372 | the colour is exactly (255,69,0) at 30, (255,255,0) at 70, (154,205,50) at 80, (0,255,0) at 90, and (234,172,149) at 10 |
| Filtering.IndexOf | timeline_test.py:204 | `month_options.index` returns the first position holding the chosen name |
| Filtering.MonthIndex | timeline_test.py:190-205 | the "--" sentinel selects month 0 (no filter); every month name selects an index in 1..12 |
| Filtering.FilterRows | timeline_test.py:199-225 | the staged filter returns no rows when the Year or Lead_Time column is missing and never more rows than the table; `FilterIsSelection` and `FilterMembership` state exactly which rows it keeps |
| Filtering.YearStage | timeline_test.py:199-208 | with "All", selecting by year and then by lead-time month is one selection by the conjunction |
| Filtering.TypeYearStage | timeline_test.py:212-222 | with a specific type, selecting by type, then year, then month is one selection by the conjunction |
| Filtering.FilterIsSelection | timeline_test.py:199-225 | the filter keeps, in file order, exactly the rows whose type matches (or "All" is chosen), whose year is present and equals the selection, and whose lead time is in the chosen month when one is chosen; it returns no rows when the Year or Lead_Time column is missing |
| Filtering.FilterMembership | timeline_test.py:199-225 | a row is in the result iff the table has both columns, the row is in the table and it satisfies the selection |
| Filtering.FilterIsSubsequence | timeline_test.py:199-225 | the result is an order-preserving subsequence of the table |
| Filtering.FilterIdempotent | timeline_test.py:199-225 | filtering the result again with the same selection returns it unchanged |
| Filtering.FilterAllTypesAllMonths | timeline_test.py:199-202 | with "All" and "--", the result is exactly the rows of the chosen year, in order |
| Filtering.AbsentLeadTimeExcluded | timeline_test.py:202-206 | once a month is chosen, a row without a lead time is never kept |
| Filtering.BlankYearExcluded | timeline_test.py:201-215 | a row whose Year cell is blank is never kept, whatever type, year and month are selected |
| Seqs.Where | timeline_test.py:201 | mask selection keeps only rows that satisfy the mask, keeps every row that does, and never grows |
| Seqs.WhereIsSubsequence | timeline_test.py:201 | mask selection preserves the order of the rows it keeps |
| Counts.TypeCounts | timeline_test.py:229 | a type is a key iff some filtered row has it, and its value is the number of filtered rows of that type (at least one) |
| Counts.CountPositive | timeline_test.py:229 | a type has a positive count iff it appears among the rows |
| Counts.SumOfTypesSeen | timeline_test.py:229 | the per-type counts add up to the number of rows that have a type |
| Counts.Aggregate | timeline_test.py:228-229 | the total and the per-type counts of the filtered rows; `AggregateSound` states what each one equals |
| Counts.AggregateSound | timeline_test.py:228-229 | the total is the number of filtered rows; the keys are exactly the types seen and each count is the number of filtered rows of its type; the counts add up to the rows with a type, which is the total when every row has one |
| Reminders.AtRisk | timeline_test.py:407-408 | the reminder mask: `MissingDeliveryReported` shows a blank delivery is at risk and `OnTimeNotAtRisk` shows a delivery on or before the lead time is not |
| Reminders.Reminders | timeline_test.py:404-410 | no reminders when the Delivery_Date or Lead_Time column is missing; never more lines than rows; no listed line is entirely blank; `SelectIsPipeline` and `ReminderMembership` state exactly which lines are listed |
| Reminders.SelectReminders | timeline_test.py:405-410 | there is never more than one reminder line per row of the table |
| Reminders.SelectIsPipeline | timeline_test.py:406-410 | the reminders are: mask the rows whose delivery is blank or later than the lead time, project Name, Lead_Time, Delivery_Date and Remarks, then drop all-blank lines, in file order |
| Reminders.ReminderMembership | timeline_test.py:406-410 | a line is reported iff some row is at risk, projects to it, and the line is not entirely blank |
| Reminders.MissingDeliveryReported | timeline_test.py:407 | a row with no delivery date is reported whenever any of its four cells is filled |
| Reminders.OnTimeNotAtRisk | timeline_test.py:408 | a delivery on or before the lead time does not make a row at risk |
| Reminders.RemindersCoverEveryView | timeline_test.py:404-410 | every at-risk, non-blank row of any filtered view appears in the reminders computed from the whole table |
| Tag.Strip | timeline_test.py:375 | `strip()` returns a slice of the text with only whitespace cut from both ends, and the result neither starts nor ends with whitespace |
| Tag.RemoveChar | timeline_test.py:375 | `replace(c, '')` leaves no occurrence of `c` and never lengthens the text |
| Tag.Upper | timeline_test.py:376 | `upper()` maps every character by its upper-case counterpart and keeps the length |
| Tag.DescriptionText | timeline_test.py:375 | an absent description gives ""; otherwise the prepared text is no longer than the description and holds no LF or CR |
| Tag.HasMarker | timeline_test.py:375-376 | the KTA38 test on the prepared description; `HasMarkerIgnoresStrip`, `MarkerInAnyCase`, `MarkerAcrossLineBreaks` and `NoMarker` state when it holds |
| Tag.HasMarkerIgnoresStrip | timeline_test.py:375-376 | stripping never changes whether the marker is found |
| Tag.MarkerInAnyCase | timeline_test.py:375-376 | the marker written in any letter case anywhere in the description tags the project |
| Tag.MarkerAcrossLineBreaks | timeline_test.py:375-376 | the marker in any letter case, split anywhere by any run of CR and LF characters, still tags the project, because line breaks are removed before the search |
| Tag.NoMarker | timeline_test.py:375-376 | "KTA 38" is not tagged, and an absent description is not tagged |
| Dashboard.LineOf | timeline_test.py:280-376 | each progress line has a reachable percentage and an in-gamut colour |
| Dashboard.LinesOf | timeline_test.py:280-391 | one progress line per row, in order, the i-th being the line of the i-th row |
| Dashboard.ProgressLines | timeline_test.py:280-391 | the loop yields, in order, one line per filtered row, with the row's percentage, colour and tag |
| Dashboard.Render | timeline_test.py:199-410 | one run of the script: counts and progress lines of the filtered rows, reminders of the whole table; `RemindersIgnoreSelection` and `LinesMatchTotal` state how they relate |
| Dashboard.RemindersIgnoreSelection | timeline_test.py:404-410 | the reminder list is the same whatever type, year, month or day is selected |
| Dashboard.LinesMatchTotal | timeline_test.py:228-280 | there is exactly one progress line per project counted in the total |
| Dashboard.SeventyPercentIsYellow | timeline_test.py:283-358 | parts arrived and installation done, nothing else, gives 70 % and pure yellow |
| Dashboard.CleaningOnly | timeline_test.py:316-346 | cleaning "YES" alone gives 10 % and colour (234,172,149) |
| Dashboard.ExtremeLines | timeline_test.py:332-372 | all milestones met draws a full blue bar; none met draws an empty grey one |

## Left out

- Streamlit rendering is not modelled: page configuration, CSS, columns, headings, the HTML of the bar and of the reminder box, the icon URL and the data table.
- Loading projects.csv is not modelled: the file check, the encoding and parser errors, the required-column check and the `pd.to_datetime(..., dayfirst=True, errors='coerce')` coercion (lines 148-181). Rows arrive already typed, and a date that does not parse is an absent date.
- The `YYYY-MM-DD` formatting of dates and their re-parsing inside the loop (lines 274-276, 287-325) are not modelled. Dates stay typed, so the `except ValueError` branches are the "absent date is not met" case.
- `datetime.now()` is a parameter (`today`). The time of day is ignored, as in the script's `.date()` comparisons in the progress tests (lines 288-326).
- Reminders.AtRisk: compares calendar days, while the script's `df['Delivery_Date'] > df['Lead_Time']` (line 408) compares full timestamps. A delivery cell with a time of day later than a lead time on the same day is at risk in the script but not in the model.
- The datetime-dtype guard and its warning (lines 203, 207-208, 217, 221-222) are not modelled: after loading, the Lead_Time column is always a datetime column, so the month filter always applies.
- Colour.ColourOf: defined only for multiples of ten in 0..100, the only percentages the calculator produces. For other percentages the script's float arithmetic could round differently from exact division.
- The bar colour is an RGB triple. The three CSS spellings the script writes (`#e0e0e0`, `rgb(r, g, b)`, `#0000ff`) are not modelled.
- Tag.Upper: upper-cases ASCII letters only. Python's `upper()` covers all of Unicode, including characters whose upper case is several letters long.
- `str(...)` of a non-text description is not modelled: the description is a string or absent.
- `KeyError` crashes are not modelled. The script raises one when the Parts_Arrival_Date, Installation_Complete_Date, Testing_Date or Delivery_Date column is missing (lines 285, 296, 307, 323; `load_data` only warns about a missing date column, line 174), when the Cleaning, Description or Remarks column is missing (lines 317, 375, 410), or when `value_counts` runs on the empty frame (line 229). The model instead gives each row an absent cell for a missing column, so where the script crashes it returns a percentage, a tag or a count.
- The order of the type-count dictionary is not modelled, because pandas defines it (count descending, library tie order).
- The selector option lists (project types, years 2024–2026) and `int(selected_year)` are not modelled. The year is passed in as an integer, and the type as the selected string.
