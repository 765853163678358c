/**
 * The reports built from the change log: the per-dungeon completion
 * summaries of one day or one week (generate_daily_summary,
 * generate_weekly_summary) and the last activity of each dungeon
 * (generate_daily_dungeon_report).
 */
module Reports {
  import opened Wrappers
  import opened Text
  import opened Catalog

  /**
   * One row of the change log, as csv.DictReader yields it: the cells
   * "Timestamp", "Datum", "Čas", "Hráč", "Změna" and "Dungeon". The two
   * point totals are never read back.
   */
  datatype LogRow = LogRow(timestamp: string, date: string, time: string, player: string, change: string, dungeon: string)

  /** Seconds since 1970-01-01 00:00 (local time) -> day number. */
  const SECONDS_PER_DAY := 86400

  function Day(stamp: int): int {
    stamp / SECONDS_PER_DAY
  }

  /** date.weekday(): Monday is 0; day 0, 1970-01-01, was a Thursday. */
  function Weekday(day: int): (w: int)
    ensures 0 <= w < 7
  {
    (day + 3) % 7
  }

  /** A closed range of day numbers. */
  datatype Window = Window(first: int, last: int)

  predicate InWindow(day: int, w: Window) {
    w.first <= day <= w.last
  }

  /** The daily summary looks at yesterday only. */
  function DailyWindow(today: int): Window {
    Window(today - 1, today - 1)
  }

  /** The weekly summary looks at last week, Monday to Sunday. */
  function WeeklyWindow(today: int): Window {
    var weekStart := today - (Weekday(today) + 7);
    Window(weekStart, weekStart + 6)
  }

  /** The window of the daily summary is exactly the day before today. */
  lemma DailyWindowIsYesterday(today: int, day: int)
    ensures InWindow(day, DailyWindow(today)) <==> day == today - 1
  {
  }

  /**
   * The weekly window spans seven days, starts on a Monday, and starts
   * between 7 and 13 days before today, so it is the whole of the week
   * before the current one.
   */
  lemma WeeklyWindowIsLastWeek(today: int)
    ensures var w := WeeklyWindow(today);
      && w.last == w.first + 6
      && 7 <= today - w.first <= 13
      && Weekday(w.first) == 0
      && w.last < today - Weekday(today)
  {
    var w := WeeklyWindow(today);
    var q := (today + 3) / 7;
    assert today + 3 == 7 * q + Weekday(today);
    assert w.first + 3 == 7 * (q - 1);
  }

  /** Which summary: the daily one records the time of day, the weekly one date and time. */
  datatype Period = Daily | Weekly

  /** The time string a completion is listed with. */
  function TimeText(row: LogRow, period: Period): string {
    match period
    case Daily => row.time
    case Weekly => row.date + " " + row.time
  }

  /** The statistics the summaries keep for one dungeon. */
  datatype DungeonStats = DungeonStats(count: nat, players: seq<string>, times: seq<string>)

  /** Dungeon name -> its statistics. */
  type Summary = map<string, DungeonStats>

  /**
   * The row is a completion in the window: its timestamp and change parse,
   * its day is in the window, it gained points and it is not a loss.
   */
  predicate Counts(row: LogRow, w: Window, parseStamp: string -> Option<int>) {
    match parseStamp(row.timestamp)
    case None => false
    case Some(stamp) =>
      match ParseInt(row.change)
      case None => false
      case Some(change) => InWindow(Day(stamp), w) && change > 0 && row.dungeon != LOSS_TEXT
  }

  /** One completion of dungeon d by player at time added to the statistics. */
  function Record(m: Summary, d: string, player: string, time: string): Summary {
    var s := Entry(m, d);
    m[d := DungeonStats(s.count + 1, s.players + [player], s.times + [time])]
  }

  /** defaultdict: the statistics of a dungeon not seen yet are empty. */
  function Entry(m: Summary, d: string): DungeonStats {
    if d in m then m[d] else DungeonStats(0, [], [])
  }

  /** The statistics once the loop has consumed every row of rows. */
  function Summarize(rows: seq<LogRow>, w: Window, period: Period, parseStamp: string -> Option<int>): Summary {
    if rows == [] then map[]
    else
      var m := Summarize(rows[..|rows| - 1], w, period, parseStamp);
      var row := rows[|rows| - 1];
      if Counts(row, w, parseStamp) then Record(m, row.dungeon, row.player, TimeText(row, period)) else m
  }

  /** The completions of dungeon d among rows, in row order. */
  function Completed(rows: seq<LogRow>, w: Window, parseStamp: string -> Option<int>, d: string): seq<LogRow> {
    if rows == [] then []
    else
      var row := rows[|rows| - 1];
      Completed(rows[..|rows| - 1], w, parseStamp, d) + (if Counts(row, w, parseStamp) && row.dungeon == d then [row] else [])
  }

  function Players(rows: seq<LogRow>): seq<string> {
    if rows == [] then [] else Players(rows[..|rows| - 1]) + [rows[|rows| - 1].player]
  }

  function Times(rows: seq<LogRow>, period: Period): seq<string> {
    if rows == [] then [] else Times(rows[..|rows| - 1], period) + [TimeText(rows[|rows| - 1], period)]
  }

  /** The aggregation loop shared by the daily and the weekly summary. */
  method AggregateSummary(rows: seq<LogRow>, w: Window, period: Period, parseStamp: string -> Option<int>)
    returns (stats: Summary)
    ensures stats == Summarize(rows, w, period, parseStamp)
  {
    stats := map[];
    var i := 0;
    assert rows[..0] == [];
    while i < |rows|
      invariant i <= |rows|
      invariant stats == Summarize(rows[..i], w, period, parseStamp)
    {
      stats := NextLogRow(rows, i, w, period, parseStamp, stats);
      i := i + 1;
    }
    assert rows[..i] == rows;
  }

  /** One turn of the aggregation loop. */
  method NextLogRow(rows: seq<LogRow>, i: nat, w: Window, period: Period, parseStamp: string -> Option<int>, m: Summary)
    returns (stats: Summary)
    requires i < |rows| && m == Summarize(rows[..i], w, period, parseStamp)
    ensures stats == Summarize(rows[..i + 1], w, period, parseStamp)
  {
    var row := rows[i];
    assert rows[..i + 1][..i] == rows[..i];
    stats := ReadLogRow(m, row, w, period, parseStamp);
  }

  /** The body of the aggregation loop for one row. */
  method ReadLogRow(m: Summary, row: LogRow, w: Window, period: Period, parseStamp: string -> Option<int>)
    returns (stats: Summary)
    ensures Counts(row, w, parseStamp) ==> stats == Record(m, row.dungeon, row.player, TimeText(row, period))
    ensures !Counts(row, w, parseStamp) ==> stats == m
  {
    stats := m;
    var timestamp := parseStamp(row.timestamp);
    if timestamp.None? {
      assert !Counts(row, w, parseStamp);
      return;
    }
    var change := ParseInt(row.change);
    if change.None? {
      assert !Counts(row, w, parseStamp);
      return;
    }
    var day := timestamp.value / SECONDS_PER_DAY;
    assert Counts(row, w, parseStamp) == (w.first <= day <= w.last && change.value > 0 && row.dungeon != LOSS_TEXT);
    if w.first <= day <= w.last && change.value > 0 {
      var dungeon := row.dungeon;
      var player := row.player;
      var timeStr := if period.Daily? then row.time else row.date + " " + row.time;
      assert timeStr == TimeText(row, period);
      if dungeon != LOSS_TEXT {
        stats := AddCompletion(stats, dungeon, player, timeStr);
      } else {
        assert !Counts(row, w, parseStamp);
      }
    } else {
      assert !Counts(row, w, parseStamp);
    }
  }

  /** The three updates of dungeon_stats[dungeon], a defaultdict entry. */
  method AddCompletion(m: Summary, dungeon: string, player: string, timeStr: string) returns (stats: Summary)
    ensures stats == Record(m, dungeon, player, timeStr)
  {
    var s := if dungeon in m then m[dungeon] else DungeonStats(0, [], []);
    s := s.(count := s.count + 1);
    s := s.(players := s.players + [player]);
    s := s.(times := s.times + [timeStr]);
    stats := m[dungeon := s];
  }

  /** The statistics of generate_daily_summary: yesterday's completions. */
  method DailySummary(rows: seq<LogRow>, today: int, parseStamp: string -> Option<int>) returns (stats: Summary)
    ensures stats == Summarize(rows, DailyWindow(today), Daily, parseStamp)
  {
    stats := AggregateSummary(rows, Window(today - 1, today - 1), Daily, parseStamp);
  }

  /** The statistics of generate_weekly_summary: last week's completions. */
  method WeeklySummary(rows: seq<LogRow>, today: int, parseStamp: string -> Option<int>) returns (stats: Summary)
    ensures stats == Summarize(rows, WeeklyWindow(today), Weekly, parseStamp)
  {
    var weekStart := today - ((today + 3) % 7 + 7);
    var weekEnd := weekStart + 6;
    stats := AggregateSummary(rows, Window(weekStart, weekEnd), Weekly, parseStamp);
  }

  /**
   * A dungeon is in the summary exactly when it has a completion in the
   * window; its count is the number of those completions, and its player
   * and time lists hold theirs, in row order.
   */
  lemma {:induction false} SummarizeIsCompleted(rows: seq<LogRow>, w: Window, period: Period, parseStamp: string -> Option<int>, d: string)
    ensures var s := Summarize(rows, w, period, parseStamp);
      var c := Completed(rows, w, parseStamp, d);
      && (d in s <==> c != [])
      && (d in s ==> s[d] == DungeonStats(|c|, Players(c), Times(c, period)))
  {
    if rows != [] {
      var init := rows[..|rows| - 1];
      var row := rows[|rows| - 1];
      SummarizeIsCompleted(init, w, period, parseStamp, d);
      var counts := Counts(row, w, parseStamp);
      SummarizeStep(rows, w, period, parseStamp, d, counts);
      RecordStep(Summarize(init, w, period, parseStamp), Completed(init, w, parseStamp, d), d, row, period, counts);
    }
  }

  /** Summarize and Completed both take the last row on top of the rows before it. */
  lemma SummarizeStep(rows: seq<LogRow>, w: Window, period: Period, parseStamp: string -> Option<int>, d: string, counts: bool)
    requires rows != [] && counts == Counts(rows[|rows| - 1], w, parseStamp)
    ensures var init := rows[..|rows| - 1];
      var row := rows[|rows| - 1];
      var m := Summarize(init, w, period, parseStamp);
      && Summarize(rows, w, period, parseStamp) == (if counts then Record(m, row.dungeon, row.player, TimeText(row, period)) else m)
      && Completed(rows, w, parseStamp, d) == Completed(init, w, parseStamp, d) + (if counts && row.dungeon == d then [row] else [])
  {
  }

  /** One turn of the aggregation loop keeps the statistics of d in step with its completions. */
  lemma RecordStep(m: Summary, c: seq<LogRow>, d: string, row: LogRow, period: Period, counts: bool)
    requires d in m <==> c != []
    requires d in m ==> m[d] == DungeonStats(|c|, Players(c), Times(c, period))
    ensures var m' := if counts then Record(m, row.dungeon, row.player, TimeText(row, period)) else m;
      var c' := c + (if counts && row.dungeon == d then [row] else []);
      && (d in m' <==> c' != [])
      && (d in m' ==> m'[d] == DungeonStats(|c'|, Players(c'), Times(c', period)))
  {
    if counts && row.dungeon == d {
      var c' := c + [row];
      assert c'[..|c'| - 1] == c && c'[|c'| - 1] == row;
      assert Players(c') == Players(c) + [row.player];
      assert Times(c', period) == Times(c, period) + [TimeText(row, period)];
      if d !in m {
        assert c == [] && Players(c) == [] && Times(c, period) == [];
      }
    } else {
      assert c + [] == c;
    }
  }

  /** The player and time lists run parallel to the completions they come from. */
  lemma {:induction false} ListsFollowRows(rows: seq<LogRow>, period: Period)
    ensures |Players(rows)| == |rows| && |Times(rows, period)| == |rows|
    ensures forall i :: 0 <= i < |rows| ==> Players(rows)[i] == rows[i].player && Times(rows, period)[i] == TimeText(rows[i], period)
  {
    if rows != [] {
      ListsFollowRows(rows[..|rows| - 1], period);
    }
  }

  /** Every counted completion is a gain in the window, parsed from its row. */
  lemma {:induction false} CompletedCount(rows: seq<LogRow>, w: Window, parseStamp: string -> Option<int>, d: string)
    ensures forall r :: r in Completed(rows, w, parseStamp, d) ==>
      r in rows && r.dungeon == d && d != LOSS_TEXT
      && parseStamp(r.timestamp).Some? && InWindow(Day(parseStamp(r.timestamp).value), w)
      && ParseInt(r.change).Some? && ParseInt(r.change).value > 0
  {
    if rows != [] {
      CompletedCount(rows[..|rows| - 1], w, parseStamp, d);
    }
  }

  /**
   * For every dungeon in a summary the count equals the length of both
   * lists, and the loss text never appears as a dungeon.
   */
  lemma SummaryShape(rows: seq<LogRow>, w: Window, period: Period, parseStamp: string -> Option<int>, d: string)
    requires d in Summarize(rows, w, period, parseStamp)
    ensures var s := Summarize(rows, w, period, parseStamp)[d];
      s.count == |s.players| == |s.times| > 0
    ensures d != LOSS_TEXT
  {
    SummarizeIsCompleted(rows, w, period, parseStamp, d);
    var c := Completed(rows, w, parseStamp, d);
    ListsFollowRows(c, period);
    CompletedCount(rows, w, parseStamp, d);
    assert c[0] in c;
  }

  /** The last-activity record of one dungeon: the newest completion and the number of them. */
  datatype Activity = Activity(last: int, count: nat)

  /** Dungeon name -> its last activity. */
  type ActivityMap = map<string, Activity>

  /** What the report loop does with one row. */
  datatype Outcome =
    | Abort                                // int() of the change cell raised
    | Skip                                 // no gain, a loss, or a timestamp that does not parse
    | Completion(dungeon: string, stamp: int)

  /**
   * The row's outcome: its change must parse; it is a completion when it
   * gained points, its stripped dungeon is not the loss text and its
   * stripped timestamp parses.
   */
  function OutcomeOf(row: LogRow, parseStamp: string -> Option<int>): Outcome {
    match ParseInt(row.change)
    case None => Abort
    case Some(change) =>
      if change <= 0 || Strip(row.dungeon) == LOSS_TEXT then Skip
      else
        match parseStamp(Strip(row.timestamp))
        case None => Skip
        case Some(stamp) => Completion(Strip(row.dungeon), stamp)
  }

  /** A completion of dungeon d at stamp folded into the activity map. */
  function Touch(m: ActivityMap, d: string, stamp: int): ActivityMap {
    if d !in m then m[d := Activity(stamp, 1)]
    else m[d := Activity(if stamp > m[d].last then stamp else m[d].last, m[d].count + 1)]
  }

  /** One turn of the report loop; None once the report has failed. */
  function Advance(m: ActivityMap, o: Outcome): Option<ActivityMap> {
    match o
    case Abort => None
    case Skip => Some(m)
    case Completion(d, stamp) => Some(Touch(m, d, stamp))
  }

  /**
   * The activity map of generate_daily_dungeon_report; None when a change
   * cell is not an integer, since that error ends the whole report.
   */
  function ActivityOf(rows: seq<LogRow>, parseStamp: string -> Option<int>): Option<ActivityMap> {
    if rows == [] then Some(map[])
    else
      match ActivityOf(rows[..|rows| - 1], parseStamp)
      case None => None
      case Some(m) => Advance(m, OutcomeOf(rows[|rows| - 1], parseStamp))
  }

  /** The row loop of generate_daily_dungeon_report. */
  method LastActivity(rows: seq<LogRow>, parseStamp: string -> Option<int>) returns (result: Option<ActivityMap>)
    ensures result == ActivityOf(rows, parseStamp)
  {
    var activity: ActivityMap := map[];
    var i := 0;
    assert rows[..0] == [];
    while i < |rows|
      invariant i <= |rows|
      invariant ActivityOf(rows[..i], parseStamp) == Some(activity)
    {
      var change := ParseInt(rows[i].change);
      if change.None? {
        AbortIsFinal(rows, i, parseStamp);
        return None;
      }
      activity := NextActivity(rows, i, parseStamp, activity);
      i := i + 1;
    }
    assert rows[..i] == rows;
    return Some(activity);
  }

  /** One turn of the report loop over a row whose change parses. */
  method NextActivity(rows: seq<LogRow>, i: nat, parseStamp: string -> Option<int>, m: ActivityMap)
    returns (activity: ActivityMap)
    requires i < |rows| && ParseInt(rows[i].change).Some? && ActivityOf(rows[..i], parseStamp) == Some(m)
    ensures ActivityOf(rows[..i + 1], parseStamp) == Some(activity)
  {
    var row := rows[i];
    activity := ReadActivity(m, row, ParseInt(row.change).value, parseStamp);
    ActivityStep(rows, i, parseStamp, m);
  }

  /** The report over one more row advances the report so far by that row. */
  lemma ActivityStep(rows: seq<LogRow>, i: nat, parseStamp: string -> Option<int>, m: ActivityMap)
    requires i < |rows| && ActivityOf(rows[..i], parseStamp) == Some(m)
    ensures ActivityOf(rows[..i + 1], parseStamp) == Advance(m, OutcomeOf(rows[i], parseStamp))
  {
    var prefix := rows[..i + 1];
    assert prefix[..|prefix| - 1] == rows[..i];
    assert prefix[|prefix| - 1] == rows[i];
  }

  /** The body of the report loop for a row whose change parsed to change. */
  method ReadActivity(m: ActivityMap, row: LogRow, change: int, parseStamp: string -> Option<int>)
    returns (activity: ActivityMap)
    requires ParseInt(row.change) == Some(change)
    ensures Some(activity) == Advance(m, OutcomeOf(row, parseStamp))
  {
    activity := m;
    ParsedOutcome(row, change, parseStamp);
    var dungeon := Strip(row.dungeon);
    var timestampStr := Strip(row.timestamp);
    if change <= 0 || dungeon == LOSS_TEXT {
      return;
    }
    var timestamp := parseStamp(timestampStr);
    if timestamp.None? {
      return;
    }
    activity := NoteCompletion(activity, dungeon, timestamp.value);
  }

  /** The outcome of a row whose change cell parsed to change. */
  lemma ParsedOutcome(row: LogRow, change: int, parseStamp: string -> Option<int>)
    requires ParseInt(row.change) == Some(change)
    ensures change <= 0 || Strip(row.dungeon) == LOSS_TEXT ==> OutcomeOf(row, parseStamp) == Skip
    ensures change > 0 && Strip(row.dungeon) != LOSS_TEXT ==>
      OutcomeOf(row, parseStamp) == match parseStamp(Strip(row.timestamp))
        case None => Skip
        case Some(stamp) => Completion(Strip(row.dungeon), stamp)
  {
  }

  /** The updates of dungeon_last_activity[dungeon] for one completion. */
  method NoteCompletion(m: ActivityMap, dungeon: string, stamp: int) returns (activity: ActivityMap)
    ensures activity == Touch(m, dungeon, stamp)
  {
    activity := m;
    if dungeon !in activity {
      activity := activity[dungeon := Activity(stamp, 0)];
    }
    if stamp > activity[dungeon].last {
      activity := activity[dungeon := activity[dungeon].(last := stamp)];
    }
    activity := activity[dungeon := activity[dungeon].(count := activity[dungeon].count + 1)];
  }

  /** A change that does not parse ends the report, whatever rows follow. */
  lemma AbortIsFinal(rows: seq<LogRow>, i: nat, parseStamp: string -> Option<int>)
    requires i < |rows| && ParseInt(rows[i].change).None?
    ensures ActivityOf(rows, parseStamp) == None
  {
    ReportFails(rows, parseStamp);
    assert 0 <= i < |rows| && ParseInt(rows[i].change).None?;
  }

  /** The report fails exactly when some change cell does not parse. */
  lemma {:induction false} ReportFails(rows: seq<LogRow>, parseStamp: string -> Option<int>)
    ensures ActivityOf(rows, parseStamp).None? <==> exists k :: 0 <= k < |rows| && ParseInt(rows[k].change).None?
  {
    if rows != [] {
      var init := rows[..|rows| - 1];
      var row := rows[|rows| - 1];
      ReportFails(init, parseStamp);
      FailsAt(init, row, parseStamp);
      assert rows == init + [row];
      BadChangeIn(init, row);
    }
  }

  /** The report over one more row fails when it had failed or the new change does not parse. */
  lemma FailsAt(init: seq<LogRow>, row: LogRow, parseStamp: string -> Option<int>)
    ensures ActivityOf(init + [row], parseStamp).None? <==> ActivityOf(init, parseStamp).None? || ParseInt(row.change).None?
  {
    var rows := init + [row];
    assert rows[..|rows| - 1] == init;
    assert rows[|rows| - 1] == row;
    AbortIff(row, parseStamp);
  }

  /** A row aborts the report exactly when its change cell does not parse. */
  lemma AbortIff(row: LogRow, parseStamp: string -> Option<int>)
    ensures OutcomeOf(row, parseStamp).Abort? <==> ParseInt(row.change).None?
  {
  }

  /** A bad change cell in init + [row] is one in init or the one of row. */
  lemma BadChangeIn(init: seq<LogRow>, row: LogRow)
    ensures (exists k :: 0 <= k < |init + [row]| && ParseInt((init + [row])[k].change).None?) <==>
      (exists k :: 0 <= k < |init| && ParseInt(init[k].change).None?) || ParseInt(row.change).None?
  {
    var rows := init + [row];
    if exists k :: 0 <= k < |init| && ParseInt(init[k].change).None? {
      var k :| 0 <= k < |init| && ParseInt(init[k].change).None?;
      assert rows[k] == init[k];
    }
    if ParseInt(row.change).None? {
      assert rows[|init|] == row;
    }
    if exists k :: 0 <= k < |rows| && ParseInt(rows[k].change).None? {
      var k :| 0 <= k < |rows| && ParseInt(rows[k].change).None?;
      if k < |init| {
        assert init[k] == rows[k];
      }
    }
  }

  /** The timestamps of dungeon d's completions among rows, in row order. */
  function Stamps(rows: seq<LogRow>, parseStamp: string -> Option<int>, d: string): seq<int> {
    if rows == [] then []
    else Stamps(rows[..|rows| - 1], parseStamp, d) + StampOf(OutcomeOf(rows[|rows| - 1], parseStamp), d)
  }

  /** The timestamp an outcome contributes to dungeon d: one for a completion of d, none otherwise. */
  function StampOf(o: Outcome, d: string): seq<int> {
    if o.Completion? && o.dungeon == d then [o.stamp] else []
  }

  /**
   * When the report succeeds, a dungeon is in it exactly when it has a
   * completion; its count is the number of completions, and its time is
   * the latest of them.
   */
  lemma {:induction false} ActivityIsLatest(rows: seq<LogRow>, parseStamp: string -> Option<int>, d: string)
    requires ActivityOf(rows, parseStamp).Some?
    ensures var m := ActivityOf(rows, parseStamp).value;
      var stamps := Stamps(rows, parseStamp, d);
      && (d in m <==> stamps != [])
      && (d in m ==>
           && m[d].count == |stamps|
           && m[d].last in stamps
           && forall t :: t in stamps ==> t <= m[d].last)
  {
    if rows != [] {
      var init := rows[..|rows| - 1];
      var o := OutcomeOf(rows[|rows| - 1], parseStamp);
      assert ActivityOf(init, parseStamp).Some?;
      ActivityIsLatest(init, parseStamp, d);
      var m := ActivityOf(init, parseStamp).value;
      assert Advance(m, o).Some?;
      AdvanceKeepsLatest(m, Stamps(init, parseStamp, d), o, d);
    }
  }

  /** One turn of the report loop keeps the map in step with the timestamps of d. */
  lemma AdvanceKeepsLatest(m: ActivityMap, stamps: seq<int>, o: Outcome, d: string)
    requires Advance(m, o).Some?
    requires d in m <==> stamps != []
    requires d in m ==> m[d].count == |stamps| && m[d].last in stamps && forall t :: t in stamps ==> t <= m[d].last
    ensures var m' := Advance(m, o).value;
      var stamps' := stamps + StampOf(o, d);
      && (d in m' <==> stamps' != [])
      && (d in m' ==>
           && m'[d].count == |stamps'|
           && m'[d].last in stamps'
           && forall t :: t in stamps' ==> t <= m'[d].last)
  {
  }
}
