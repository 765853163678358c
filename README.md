# Dungeon points tracker: a verified model of its core

`dungeon_tracker.py` scrapes a ranking page of dungeon points every two
hours. It compares each new snapshot of the players' totals with the
previous one, and names the dungeon behind each gain using a catalog that
maps point values to dungeon names. It keeps the last 30 snapshots and
builds daily and weekly summaries, plus a last-activity report, from the
change log it writes.

This project models the parts that work without I/O once their inputs
are given as values:

- `wrappers.dfy` (`Wrappers`): the `Option` type.
- `text.dfy` (`Text`): the Python built-ins the core relies on.
  - `str.strip`, with Python's `str.isspace` character set.
  - `int()` of a string: an optional sign and ASCII digits, with single
    underscores between digits. Surrounding whitespace is skipped, but
    `int()` skips a smaller set than `str.isspace`: it rejects the
    information separators U+001C to U+001F (`Text.IsNumberSpace`).
  - `str()` of an integer, and `str.join`.
- `catalog.dfy` (`Catalog`):
  - The row loop of `_load_dungeon_map`: the method `LoadCatalog`, proved
    equal to the fold `Load`.
  - `_get_dungeon_name` and the sign split of `calculate_diff`: the tagged
    value `Label` (`Loss`, `Known(names)`, `Unknown(points)`) and its
    rendering `Render`.
- `diff.dfy` (`Diff`): the loop of `calculate_diff` (`CalculateDiff`),
  proved equal to the map comprehension `DiffOf`.
- `tracker.dfy` (`Tracker`): the class `DungeonPointsTracker`.
  - Its fields are the catalog and the history.
  - `Update` computes the diff and then appends to and truncates
    `self.history`.
  - Lemmas about the 30-entry bound cover a single update and whole runs
    of updates.
- `reports.dfy` (`Reports`):
  - The aggregation loop the daily and weekly summaries share
    (`AggregateSummary`), proved equal to `Summarize`, and their day
    windows.
  - The last-activity loop of `generate_daily_dungeon_report`
    (`LastActivity`), proved equal to `ActivityOf`.

Timestamps are integers (seconds since 1970-01-01, local time). A day is
`stamp / 86400`, and 1970-01-01 was a Thursday, so `date.weekday()` is
`(day + 3) % 7`. `datetime.strptime` is a parameter `parseStamp` (the
timestamp cell to seconds, or None when it does not parse). The current
date and time are parameters too.

The model follows the code where one might have expected a stricter catalog:

- Catalog keys are whatever `int()` accepts, so zero and negative values
  are kept.
- A row with an empty dungeon name is kept as well.
- A catalog row missing a cell ends the load with the rows read so far.
  `.strip()` on the missing cell raises, and the handler at line 71
  returns the partial map.

## Model

| member | source | states |
|---|---|---|
| Text.StripIsSlice | dungeon_tracker.py:56-57 | `.strip()` is a contiguous slice of its input: only whitespace is removed, only at the ends, and the result neither starts nor ends with whitespace |
| Text.StripIdempotent | dungeon_tracker.py:56-57 | stripping a stripped string changes nothing |
| Text.StrippedNumber | dungeon_tracker.py:57-61 | after `.strip()`, `int()` finds no whitespace left to skip |
| Text.SeparatorRejected | dungeon_tracker.py:298 | `int()` raises on any string holding an information separator (U+001C to U+001F), even though `str.isspace` counts those as whitespace |
| Text.IntToStringRoundTrip | dungeon_tracker.py:78 | `int(str(n)) == n` for every integer n, negative ones included (Python's 4300-digit limit aside) |
| Text.JoinAt | dungeon_tracker.py:84 | in `sep.join(names)` every name lies at its offset, in list order |
| Text.JoinSeparatorAt | dungeon_tracker.py:84 | the separator lies between every two consecutive names, and nowhere else between them |
| Text.JoinEnds | dungeon_tracker.py:84 | `sep.join(names)` ends right after the last name |
| Catalog.CompletePrefix | dungeon_tracker.py:55-73 | the number of rows read before the first row missing a cell: every earlier row has both cells, and the row at that index lacks one |
| Catalog.LoadCatalog | dungeon_tracker.py:52-73 | the row loop returns `Load(rows)`, the fold of its complete rows; it stops at the first row missing a cell and keeps what it built |
| Catalog.ReadRow | dungeon_tracker.py:57-66 | one complete row appends its stripped name under its parsed points, creating the list if needed; a blank or non-integer points cell leaves the map as it was |
| Catalog.SkippedRow | dungeon_tracker.py:60-67 | a row whose points cell is blank or not an integer leaves the catalog unchanged |
| Catalog.AcceptedRow | dungeon_tracker.py:61-64 | an accepted row adds its point key if it was missing and appends the stripped name to the end of that key's list; every other key and list is unchanged |
| Catalog.FoldIsNamesAt | dungeon_tracker.py:55-66 | a key is in the catalog iff some complete row parses to it, and its list is exactly those rows' names in row order |
| Catalog.LoadIsNamesAt | dungeon_tracker.py:52-73 | every list in a loaded catalog is non-empty and holds the names of the rows read, in row order |
| Catalog.LoadStopsAtMissingCell | dungeon_tracker.py:55-73 | rows after the first one missing a cell never affect the catalog |
| Catalog.Classify | dungeon_tracker.py:236-240 | a nonzero change is labelled a loss iff it is negative, and a positive change gets the catalog's label for that many points |
| Catalog.UnknownNameEmbedsPoints | dungeon_tracker.py:77-78 | a value missing from the catalog renders as the "unknown dungeon" prefix and suffix, and the text between them parses back to the value |
| Catalog.SingleName | dungeon_tracker.py:80-82 | a value with one name renders as that name |
| Catalog.SeveralNames | dungeon_tracker.py:83-84 | a value with several names renders as all of them in list order, separated by " / ", with nothing after the last name |
| Catalog.LossIsNotUnknown | dungeon_tracker.py:236-240 | the loss text differs from every "unknown dungeon" text |
| Diff.CalculateDiff | dungeon_tracker.py:223-249 | the loop returns `DiffOf`: None for an empty previous snapshot, otherwise a record for each changed player of either snapshot |
| Diff.VisitPlayer | dungeon_tracker.py:231-247 | one turn of the loop adds the player's record iff the player's total changed, and changes nothing else |
| Diff.ColdStart | dungeon_tracker.py:225-226 | with an empty previous snapshot the result is None, which is distinct from an empty diff |
| Diff.DiffRecords | dungeon_tracker.py:228-247 | a player is in the diff iff it is in either snapshot and its totals differ (absent counts as 0); its record holds both totals and their nonzero difference |
| Diff.SignRule | dungeon_tracker.py:236-240 | a negative change is always a loss, whatever the catalog holds; a positive change gets the catalog's label for that change |
| Diff.DiffWithItself | dungeon_tracker.py:228-249 | comparing a non-empty snapshot with itself gives an empty diff |
| Diff.Antisymmetry | dungeon_tracker.py:229-234 | swapping two non-empty snapshots keeps the same players, negates each change and exchanges the totals |
| Tracker.AppendedBound | dungeon_tracker.py:615-620 | after append-then-truncate the length is min(old length + 1, 30), the new entry is last, and the history is a suffix of old history + [entry] |
| Tracker.AppendedEvictsOldest | dungeon_tracker.py:615-620 | on a full history an update drops exactly the oldest entry |
| Tracker.AppendedIsPrevious | dungeon_tracker.py:606-620 | the next update's diff is computed against the snapshot this update saved |
| Tracker.KeepThenAppend | dungeon_tracker.py:615-620 | truncating before an append gives the same history as truncating after it |
| Tracker.AppendAllKeepsLatest | dungeon_tracker.py:615-620 | after any run of updates, starting from at most 30 entries, the history is the last 30 of all entries in order |
| Tracker.LongRunForgetsStart | dungeon_tracker.py:615-620 | after 30 or more updates only their own entries remain |
| Tracker.DungeonPointsTracker.constructor | dungeon_tracker.py:35-40 | the catalog is `Load` of the catalog rows, or empty when the file is missing; the history is the loaded one |
| Tracker.DungeonPointsTracker.Update | dungeon_tracker.py:590-620 | a failed or empty download changes nothing; otherwise the result is the diff against the newest saved snapshot (or {}), and the history gains the new entry, cut to its last 30, with the catalog unchanged |
| Reports.Weekday | dungeon_tracker.py:362 | `date.weekday()` lies in 0..6 |
| Reports.DailyWindowIsYesterday | dungeon_tracker.py:287-300 | a day counts for the daily summary iff it is the day before today |
| Reports.WeeklyWindowIsLastWeek | dungeon_tracker.py:362-363 | the week ends six days after it starts, starts on a Monday 7 to 13 days before today, and ends before the current week begins |
| Reports.AggregateSummary | dungeon_tracker.py:295-310 | the loop returns `Summarize`: the fold of `Record` over the rows that count |
| Reports.ReadLogRow | dungeon_tracker.py:296-310 | a row counts iff its timestamp and change parse, its day is in the window, the change is positive and its dungeon is not the loss text; only a counting row updates the statistics |
| Reports.AddCompletion | dungeon_tracker.py:306-308 | one completion increments the dungeon's count and appends its player and time, starting from empty statistics for a new dungeon |
| Reports.DailySummary | dungeon_tracker.py:286-310 | yesterday's statistics, with each completion listed by the time cell |
| Reports.WeeklySummary | dungeon_tracker.py:361-385 | last week's statistics (Monday to Sunday), with each completion listed by "date time" |
| Reports.SummarizeIsCompleted | dungeon_tracker.py:295-310 | a dungeon is in the summary iff it has a completion in the window; its count is the number of those completions, and its players and times are theirs, in row order |
| Reports.ListsFollowRows | dungeon_tracker.py:306-308 | the player and time lists run parallel to the completions: same length, same order |
| Reports.CompletedCount | dungeon_tracker.py:297-305 | every completion counted comes from the log, parses, falls in the window, gained points and is not a loss |
| Reports.SummaryShape | dungeon_tracker.py:300-308 | for every summarized dungeon the count equals the length of both lists and is positive, and the loss text is never a dungeon |
| Reports.LastActivity | dungeon_tracker.py:444-468 | the loop returns `ActivityOf`; a change cell that does not parse ends the report with None |
| Reports.ReadActivity | dungeon_tracker.py:449-468 | a row with a parsed change is skipped unless it gained points, its stripped dungeon is not the loss text and its stripped timestamp parses; otherwise it is a completion at that timestamp |
| Reports.NoteCompletion | dungeon_tracker.py:459-465 | a completion creates the dungeon's record if missing, raises its time to the later one, and adds one to its count |
| Reports.AbortIsFinal | dungeon_tracker.py:451 | one change cell that does not parse fails the whole report, whatever the other rows hold |
| Reports.ReportFails | dungeon_tracker.py:448-451 | the report fails iff some change cell does not parse |
| Reports.ActivityIsLatest | dungeon_tracker.py:444-468 | in a successful report a dungeon is present iff it has a completion; its count is the number of completions, and its time is the latest of them and is one of them |

## Left out

- Scraping with Selenium (`fetch_data`, the browser driver, and the filter
  for positive points in the page's table). `Update` takes the snapshot it
  would return, or None for a failed download.
- All file I/O: reading the catalog and change-log CSV files, the header
  and append writes, the summary CSV rows, and JSON history load and save
  with the temporary-file rename and retries. The catalog and log arrive
  as sequences of rows, and the history as a loaded sequence. A missing
  catalog file is `None`.
- The return value of `Update`. It returns the diff that `update`
  prints and appends to the change log; the Python method returns nothing.
- Writing the summary rows. This includes the sort by dungeon name, the
  `", "` and `"; "` joins of players and times, and the ISO week number
  (`isocalendar`).
- The console output: `print_report`; the sorted tables, icons and
  "time ago" strings of the daily report; and the totals of the weekly
  summary and the daily report.
- `datetime.now()`, `strptime`, `strftime` and `isoformat`. The current
  day and moment are integer parameters. The timestamp parser is the
  parameter `parseStamp`. The stored history timestamp is the integer
  moment.
- Change-log rows with missing cells. The summaries' `except` for
  `KeyError` and the `TypeError` a `None` cell would raise are not
  modelled. Every log row has all its cells.
- Python `int()` on non-ASCII decimal digits, and `str.isspace` on
  characters outside the set listed in `Text.IsSpace`.
- Text.ParseInt: Python's default limit of 4300 digits on `int()` of a
  string is not modelled, so longer numbers parse here where Python
  raises `ValueError`.
- Text.IntToStringRoundTrip: holds for numbers of any length, because
  the same 4300-digit limit on `str()` is not modelled either.
- The write-permission probe, `sys.exit`, the `schedule` loop,
  command-line flags and `KeyboardInterrupt` handling.
- The insertion order of Python dicts. Maps are unordered here, and the
  lists inside them keep row order.
