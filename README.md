# Basketball feature pipeline: the sequential core

This project models, in Dafny, the sequential core of `Source.cpp`, a C++
program that turns a chronological basketball match CSV into a feature file.
Dafny proves the properties below. The core has five parts:

- **The calendar engine** (`class Date`), in `calendar.dfy`:
  - `split_date` recognises the `DD.MM.YYYY?` pattern;
  - `is_leap`, `to_day_number`, `operator>` and `operator-` give a forward-only day difference;
  - `set_date` stores the parsed fields or the zero date.
- **The per-line date rewrite of `modify_dates`**, in `date_rewrite.dfy`. The day and month are kept. The year is picked from a `YYYY-YYYY` season, and the field is written as `DD.MM.YYYY.`.
- **The rest-day annotator `calculate_and_insert_rest_days`**, in `rest_days.dfy`:
  - the rows are walked from the last to the first;
  - a map holds each team's last-seen date;
  - each row is written, in walking order, with `,home_rest,away_rest` appended;
  - a team's first game gets 50, and every later game gets `Date(current) - Date(last seen)`.
- **The lagged-window engine `calculate_and_create_lagged_averages`**, in `lagged.dfy`:
  - there are 27 maps from team to deque;
  - each record does 23 home/away pushes, then 4 cross-assigned "allowed" metrics (opponent metrics 3, 6, 9, 18);
  - the home trim and the away trim are decided separately;
  - a gate on both metric-0 deques holding `W + 1` values decides whether a row is emitted;
  - the emitted row holds forecasts made from each deque without its newest entry.
- **`get_modified_filePath`**, in `paths.dfy`.

`text.dfy` holds the decimal digits, the integer text a stream writes, and the comma cutting (`find_first_of` / `substr` / `erase`) that the passes share.

How the code is modelled:

- **Date** is a class whose methods update its fields, as in the source.
- **`to_day_number`** keeps its loop (`Calendar.Date.DayNumber`).
- **The two record loops** are methods with loops:
  - the rest-day loop updates a `map<string, string>`;
  - the lagged loop updates a `seq<map<string, seq<real>>>`, one map per metric.
  - Each loop is proved equal to a value-level definition (`RestDays.Output`, `Lagged.Rows`), and the properties are proved about that definition.
- **C++ division** truncates toward zero, and `Calendar.Quot` says so explicitly. This matters for the zero date, whose year 0 gives `y = -1` in `to_day_number`.

Where the program's documented behaviour and its code differ, the model follows the code:

- **The date pattern.** The pattern `(\d{2})\.(\d{2})\.(\d{4}).` ends in an unescaped `.`. It therefore accepts any final byte except `\n` and `\r`, not only a dot.
- **Trimming.** Each team is trimmed on its own as soon as its metric-0 deque exceeds `W + 1` (Source.cpp:366-373). Trimming does not wait for both teams.

## Model

| member | source | states |
|---|---|---|
| Text.DigitsValueOfDigits | Source.cpp:28-30 | reading back a zero-padded fixed-width rendering of `n < 10^w` gives `n` (what `stoi` returns on the digit groups) |
| Text.DigitsOfDigitsValue | Source.cpp:28-30 | rendering the value of a digit run at its own width gives the run back |
| Text.DecimalIsDigits | Source.cpp:147-154 | a number with exactly `w` digits is written by the stream as those `w` digits |
| Text.IndexOfIsFirst | Source.cpp:193 | `find_first_of` finds the first occurrence, and `npos` only when there is none |
| Text.CutAtFirstComma | Source.cpp:193-200 | the cut splits a row into a comma-free field, the comma and the rest; with no comma, `npos + 1` wraps to 0 and the row is left whole |
| Text.CutAfterPrefix | Source.cpp:193-200 | cutting `field + "," + rest` for a comma-free field gives the field and the rest |
| Calendar.IsLeap | Source.cpp:18-20 | definition: divisible by 4 and not by 100, or divisible by 400 |
| Calendar.SplitDate | Source.cpp:22-39 | definition: an 11-character text of two digits, `.`, two digits, `.`, four digits and one non-terminator gives its three numbers, anything else the error flag; contract: the fields it yields are within 0..99, 0..99 and 0..9999 |
| Calendar.Later | Source.cpp:59-63 | definition: compares year, then month, then day, and is false on equal dates |
| Calendar.Difference | Source.cpp:86-91 | definition: 0 unless the left date is strictly later, otherwise the difference of the two day numbers |
| Calendar.SplitDateAccepts | Source.cpp:22-32 | every day, month and year the pattern can hold parses back from its text, whatever the final non-terminator character |
| Calendar.SplitDateShape | Source.cpp:22-38 | a string parses only if it is the 10-character text of the date it yields plus one non-terminator; every other string gives the error flag |
| Calendar.Date.constructor | Source.cpp:66-69 | a new `Date` holds the zero date and an empty text |
| Calendar.Date.SetDate | Source.cpp:71-84 | the text is kept; the fields become the parsed date, or all three 0 when the text does not match |
| Calendar.Date.DayNumber | Source.cpp:41-57 | the loop's day count equals the proleptic day number: years before, the month table before this month, the leap day after February, the day |
| Calendar.Date.Minus | Source.cpp:86-91 | the result is the forward-only difference: 0 unless this date is strictly later, otherwise the difference of day numbers |
| Calendar.QuotStep | Source.cpp:45 | `n / k - (n - 1) / k` is 1 exactly when `k` divides `n`, for the leap-rule divisors |
| Calendar.YearLength | Source.cpp:18-20 | each year adds 365 days to the count, 366 when `is_leap` holds |
| Calendar.MonthStartStep | Source.cpp:47-53 | the month offsets grow by the length of each month, February 29 days in leap years |
| Calendar.TableSumsToYear | Source.cpp:47 | the twelve month lengths add up to 365 |
| Calendar.DayNumberInItsYear | Source.cpp:41-57 | a valid date's day number lies after the start of its year and no later than the start of the next |
| Calendar.DayNumberIncreasing | Source.cpp:41-63 | on valid dates the day number is strictly increasing in `operator>` order |
| Calendar.DifferenceZeroUnlessLater | Source.cpp:59-91 | on valid dates the difference is 0 exactly when the left date is not strictly later, equal dates included, and positive otherwise |
| Calendar.DifferenceAdditive | Source.cpp:86-91 | for valid dates `a > c > b`: `a - b == (a - c) + (c - b)` and `a - b > a - c > 0` |
| Calendar.LaterIsKeyOrder | Source.cpp:59-63 | for fields the pattern can hold, `operator>` is the numeric order of YYYYMMDD |
| Calendar.ExampleDifferences | Source.cpp:86-91 | 03.01.2020 − 01.01.2020 = 2; 01.03.2020 − 28.02.2020 = 2; 01.03.2019 − 28.02.2019 = 1; an earlier minus a later date is 0 |
| DateRewrite.RewriteLine | Source.cpp:132-158 | definition: the padded day and month, the season year picked by the month, each followed by a dot, then a comma and everything after the line's first comma |
| DateRewrite.PaddedIsTwoDigits | Source.cpp:147-154 | a day or month in 0..99 is written as exactly two digits |
| DateRewrite.FourDigitYear | Source.cpp:152-154 | a four-digit year is written as its four digits |
| DateRewrite.RewriteRoundTrip | Source.cpp:133-158 | the rewritten first field parses back to the same day and month, with the first season year for months after August and the second otherwise; the rest of the line after its first field is unchanged |
| RestDays.CutGame | Source.cpp:192-200 | definition: the date, home and away fields cut from the line with `find_first_of` / `substr` / `erase`, and the line itself |
| RestDays.Step | Source.cpp:202-224 | definition: the home team's entry is looked up and set to the row's date, then the away team's entry is looked up in that updated map and set |
| RestDays.Walk | Source.cpp:189-229 | definition: the steps from the last row to the first, giving what each row found in walking order and the final map; contract: one result per row |
| RestDays.CutGameFields | Source.cpp:192-200 | for comma-free fields, the three cuts give back the row's date, home team and away team |
| RestDays.Games | Source.cpp:185-200 | one cut record per line, each keeping its line |
| RestDays.RestSince | Source.cpp:202-212 | a team not in the map gets 50 and is inserted; otherwise the result is `Date(match) - Date(previous)` and the entry becomes the match date |
| RestDays.AnnotateRow | Source.cpp:191-226 | one loop turn: home looked up and updated, then away against the updated map, and the row with both values appended |
| RestDays.CalculateAndInsertRestDays | Source.cpp:185-229 | the rows written are exactly the walk's output: each line, last to first, with its two values |
| RestDays.LoopStep | Source.cpp:189-229 | each loop turn writes the next output row and leaves the map the walk leaves |
| RestDays.LoopInTable | Source.cpp:202-224 | before a row is handled, every stored date lies in the month table's range |
| RestDays.WalkInTable | Source.cpp:202-224 | every date the walk stores or finds is the date of one of the rows |
| RestDays.StepLastSeen | Source.cpp:202-224 | one row sets both of its teams to the row's date and leaves every other team as it was |
| RestDays.LastSeenDate | Source.cpp:189-229 | after the walk, a team has a last-seen date exactly when it played some row, home or away, and that date is the date of its newest row |
| RestDays.WalkOfSuffix | Source.cpp:189-228 | walking the older rows is the beginning of walking all rows |
| RestDays.RowStep | Source.cpp:189-228 | what a row finds is one step from the map that the older rows left |
| RestDays.OutputOrder | Source.cpp:189-228 | the `p`-th row written is input line `n - 1 - p` with `,home_rest,away_rest` appended |
| RestDays.PreviousGameIsLastSeen | Source.cpp:202-224 | before row `i`, a team is in the map exactly when it has an older row, and its entry is the date of its previous game |
| RestDays.HomeFinds | Source.cpp:202-207 | the home lookup finds nothing for a team without an older row, otherwise its previous game's date, home or away |
| RestDays.AwayFinds | Source.cpp:214-219 | the away lookup finds the row's own date when away equals home; otherwise as for home |
| RestDays.RestsAt | Source.cpp:202-224 | a row's values are computed from what its lookups find |
| RestDays.HomeRestDays | Source.cpp:202-212 | the home value is 50 on a team's first game, otherwise `Date(row) - Date(previous game)` |
| RestDays.AwayRestDays | Source.cpp:214-224 | the away value is 0 when away equals home, 50 on a first game, otherwise `Date(row) - Date(previous game)` |
| RestDays.LastSeenIsCurrentRow | Source.cpp:204-219 | after a row, both its teams' last-seen date is the row's date |
| Lagged.EmptyTable | Source.cpp:291 | 27 metric maps in which every team's deque is empty |
| Lagged.Pushed | Source.cpp:316-355 | after a record's pushes, every deque equals the old deque followed by exactly the values the record gives that team for that metric |
| Lagged.PopFront | Source.cpp:367-372 | the team's 27 deques lose their front; no other deque changes |
| Lagged.PushedKeepsEven | Source.cpp:316-355 | the pushes keep each team's 27 deques at one common length |
| Lagged.Trim | Source.cpp:366-373 | a trim keeps each team's 27 deques at one common length |
| Lagged.TrimWindow | Source.cpp:366-373 | a trim drops the front of a deque only for the trimmed team, and only when its metric-0 deque exceeds `W + 1` |
| Lagged.AdvanceKeepsBound | Source.cpp:316-373 | after each record, every team's 27 deques have one common length of at most `W + 1`, even when home equals away |
| Lagged.Advance | Source.cpp:316-373 | definition: all pushes of a record, then the home trim, then the away trim; contract: each team's 27 deques keep one common length |
| Lagged.State | Source.cpp:302-373 | the table after any prefix of records satisfies that bound |
| Lagged.Pairs | Source.cpp:380-419 | two cells, a home and an away forecast, per metric in the range |
| Lagged.PairsExtend | Source.cpp:380-419 | one more metric adds its home forecast, then its away forecast |
| Lagged.Row | Source.cpp:377-419 | definition: the three leading fields, the 23 observed forecast pairs, the three trailing fields, the 4 allowed forecast pairs |
| Lagged.Rows | Source.cpp:302-427 | definition: after each record, its row when the gate is open on the table after that record; contract: at most one row per record |
| Lagged.PushRecord | Source.cpp:316-355 | the push loop and the four cross pushes produce exactly the pushed table |
| Lagged.PopFronts | Source.cpp:367-372 | the pop loop produces exactly `PopFront` |
| Lagged.TrimTeam | Source.cpp:366-373 | the conditional pop produces exactly the trim |
| Lagged.EmitRow | Source.cpp:377-419 | the emission loops produce exactly the row layout |
| Lagged.ProcessRecord | Source.cpp:302-425 | one record: the table advances by push, home trim and away trim, and one row is emitted exactly when the gate is open |
| Lagged.CalculateAndCreateLaggedAverages | Source.cpp:302-427 | the rows emitted are exactly `Rows` of the records |
| Lagged.HistoryLength | Source.cpp:316-355 | with distinct teams, each game of a team adds exactly one value per metric |
| Lagged.AdvanceWindow | Source.cpp:316-373 | one record appends the team's values and drops the front when the deque grows past `W + 1` |
| Lagged.LastStep | Source.cpp:366-373 | append-then-drop-front keeps a deque equal to the last `W + 1` values |
| Lagged.StateStep | Source.cpp:316-373 | a deque after the last record, computed from the deque before it |
| Lagged.RecentHistoryStep | Source.cpp:316-373 | the recent-history property carries over one record |
| Lagged.WindowIsRecentHistory | Source.cpp:316-373 | with distinct teams, a team's deque of a metric is the last `W + 1` values of its history |
| Lagged.LastPrior | Source.cpp:381-388 | a full window without its newest value is the last `W` values before it |
| Lagged.GateMeaning | Source.cpp:376 | a row is emitted exactly when both teams have each played at least `W` earlier games |
| Lagged.PriorWindow | Source.cpp:381-388 | a full deque without its newest entry is the last `W` values of the team's earlier games |
| Lagged.ForecastUsesOnlyPriorGames | Source.cpp:376-409 | every forecast of an emitted row uses exactly the last `W` values of the team's earlier games, never the current one |
| Lagged.NoRowsDuringWarmUp | Source.cpp:366-376 | no row is emitted while at most `W` records have been read |
| Lagged.RowLayout | Source.cpp:377-419 | a row has 60 cells: date, home, away; the metric `i < 23` forecasts at `3 + 2i` and `4 + 2i`; the three trailing fields at 49..51; the allowed forecasts from 52 on |
| Lagged.AllowedIsOpponentObserved | Source.cpp:319-355 | metrics 23..26 of home receive the away team's metrics 3/6/9/18 of the same row, and the other way round, while metric 3/6/9/18 gets the team's own value |
| Lagged.ObservedIsOwnColumn | Source.cpp:316-343 | metrics 0..22 receive the team's own column: home values for home, away values for away |
| Paths.LastIndexOf | Source.cpp:433 | `find_last_of`: the found index holds the character and none follows; `npos` only when it is absent |
| Paths.ModifiedFilePath | Source.cpp:432-443 | definition: the modifier inserted before the last dot when that dot is past index 0, otherwise `None` for the error exit; contract: the new name is longer by exactly the modifier |
| Paths.LastDotOfExtension | Source.cpp:433 | a name ending in `.ext`, where `ext` has no dot, has its last dot there |
| Paths.ModifiedFilePathFails | Source.cpp:432-442 | the error exit is taken exactly when the name has no dot after its first character |
| Paths.ModifiedFilePathOfSplit | Source.cpp:432-438 | stem + extension becomes stem + modifier + extension, and the extension stays the new name's extension |

## Left out

- File and stream handling is not modelled:
  - opening, reading and writing files;
  - the header rows (Source.cpp:130-131, 182-184, 298-301);
  - the open-error returns;
  - the line-by-line reading into `spreadsheet` (Source.cpp:185-188).
  - The rest-day annotator takes the data lines as a sequence and returns the lines it writes.
- `copy_file` and its global `count` (Source.cpp:99-122) are left out, because they are I/O only.
- `menu`, the argument handling and the hard-coded paths of `main` are left out. So are `DataFrame.h`, the derived-ratio block and `load_data`/`save_to_csv`: that code is not part of this model.
- `mean`, `exponential_smoothing` and `predict_next_score` (Source.cpp:234-281) are left out. They are floating-point numerics with `sqrt` and narrowing. The lagged engine takes the forecast as a parameter `forecast: seq<real> -> real`, applied to each W-value window.
- The `std::stod` conversions of the lagged engine are not modelled, and neither is its comma cutting of a record (Source.cpp:305-309, 317-320, 331-334, 358-363). Records arrive already split:
  - date, home, away;
  - 23 home and 23 away reals;
  - three trailing fields.
- The `std::stoi` conversions of `modify_dates` (Source.cpp:136-145) and the file-name stem cutting (Source.cpp:140-142) are not modelled. The per-line rewrite takes the day, the month and the two season years as integers.
- The number formatting of the lagged output is left out. An emitted row is a sequence of cells (text fields and forecast numbers), not joined text.
- The error messages printed by `set_date` and `get_modified_filePath` are left out. The model keeps their effect: the zero date, or `None` standing for `exit(1)`.
- Calendar.Date.DayNumber: requires a month of at most 13. For larger months the source reads past its 12-entry month table, which is undefined behaviour.
- Calendar.Date.Minus: requires a month of at most 13, for the same reason, but only when the day numbers are computed.
- RestDays.CalculateAndInsertRestDays: requires every row's date to parse to a month of at most 13, or to fail to parse (which gives the zero date). This excludes the same out-of-table read.
- Calendar.Date.Minus: does not model the 64-bit `long long` day count or the `static_cast<int>`. Both are exact for the four-digit years the pattern allows.
- Lagged.HistoryLength: requires a different home and away team in every record; a team playing itself pushes two values per metric.
- Lagged.AdvanceWindow: requires a different home and away team in the record, for the same reason.
- Lagged.StateStep: requires a different home and away team in every record, for the same reason.
- Lagged.RecentHistoryStep: requires a different home and away team in every record, for the same reason.
- Lagged.WindowIsRecentHistory: requires a different home and away team in every record, for the same reason.
- Lagged.GateMeaning: requires a different home and away team in every record, for the same reason.
- Lagged.PriorWindow: requires a different home and away team in every record, for the same reason.
- Lagged.ForecastUsesOnlyPriorGames: requires a different home and away team in every record, for the same reason.
- Lagged.NoRowsDuringWarmUp: requires a different home and away team in every record; a team playing itself pushes two values per record and can open the gate within the first `W` records.
- Lagged.AllowedIsOpponentObserved: requires a different home and away team in the record; with one team, both values land on the same deque.
- Lagged.ObservedIsOwnColumn: requires a different home and away team in the record, for the same reason.
- Lagged.AdvanceKeepsBound holds without that requirement.
- Calendar.SplitDate: a Dafny `char` stands for one byte of a `std::string`. The pattern's final `.` matches one byte, so a multi-byte UTF-8 character in last place (which the source rejects) is not modelled.
- The lagged deques are modelled as sequences held by value in the table. In the source they are `std::deque` objects inside `std::unordered_map`s and are updated in place.
