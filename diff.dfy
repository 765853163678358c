/**
 * calculate_diff: the per-player changes between the previous and the
 * current snapshot of point totals, each attributed to a dungeon.
 */
module Diff {
  import opened Wrappers
  import opened Catalog

  /** Player name -> total points at one moment. */
  type Snapshot = map<string, int>

  /** The record kept for one player whose total changed. */
  datatype ChangeRecord = ChangeRecord(oldPoints: int, newPoints: int, change: int, dungeon: Label)

  /** Player name -> record of that player's change. */
  type ChangeSet = map<string, ChangeRecord>

  /** dict.get(player, 0): a player missing from a snapshot counts as 0 points. */
  function Points(s: Snapshot, player: string): int {
    if player in s then s[player] else 0
  }

  /** The record of one player between the two snapshots. */
  function RecordOf(dungeonMap: DungeonMap, previous: Snapshot, current: Snapshot, player: string): ChangeRecord
    requires Points(current, player) != Points(previous, player)
  {
    var change := Points(current, player) - Points(previous, player);
    ChangeRecord(Points(previous, player), Points(current, player), change, Classify(dungeonMap, change))
  }

  /** The players of either snapshot whose total differs between them. */
  predicate Changed(previous: Snapshot, current: Snapshot, player: string) {
    (player in previous || player in current) && Points(current, player) != Points(previous, player)
  }

  /** The records of the changed players among those in done. */
  function DiffOver(dungeonMap: DungeonMap, previous: Snapshot, current: Snapshot, done: set<string>): ChangeSet {
    map player | player in done && Changed(previous, current, player) :: RecordOf(dungeonMap, previous, current, player)
  }

  /**
   * What calculate_diff returns: None for an empty previous snapshot,
   * otherwise a record for every player in either snapshot whose total changed.
   */
  function DiffOf(dungeonMap: DungeonMap, previous: Snapshot, current: Snapshot): Option<ChangeSet> {
    if |previous| == 0 then None
    else Some(DiffOver(dungeonMap, previous, current, previous.Keys + current.Keys))
  }

  /** The loop of calculate_diff over the union of the two snapshots' players. */
  method CalculateDiff(dungeonMap: DungeonMap, previous: Snapshot, current: Snapshot) returns (result: Option<ChangeSet>)
    ensures result == DiffOf(dungeonMap, previous, current)
  {
    if |previous| == 0 {
      return None;
    }
    var diff: ChangeSet := map[];
    var allPlayers := previous.Keys + current.Keys;
    var remaining := allPlayers;
    while remaining != {}
      invariant remaining <= allPlayers
      invariant Recorded(dungeonMap, previous, current, allPlayers - remaining, diff)
      decreases remaining
    {
      var player :| player in remaining;
      ghost var before := diff;
      diff := VisitPlayer(dungeonMap, previous, current, player, diff);
      RecordedStep(dungeonMap, previous, current, allPlayers - remaining, player, before, diff);
      assert allPlayers - (remaining - {player}) == (allPlayers - remaining) + {player};
      remaining := remaining - {player};
    }
    assert allPlayers - remaining == allPlayers;
    DiffIsComplete(dungeonMap, previous, current, diff);
    return Some(diff);
  }

  /** The body of the loop for one player of either snapshot. */
  method VisitPlayer(dungeonMap: DungeonMap, previous: Snapshot, current: Snapshot, player: string, before: ChangeSet)
    returns (diff: ChangeSet)
    requires player in previous || player in current
    ensures diff == if Changed(previous, current, player) then before[player := RecordOf(dungeonMap, previous, current, player)] else before
  {
    diff := before;
    var oldPoints := if player in previous then previous[player] else 0;
    var newPoints := if player in current then current[player] else 0;
    var change := newPoints - oldPoints;
    if change != 0 {
      var dungeon := if change > 0 then Lookup(dungeonMap, change) else Loss;
      assert oldPoints == Points(previous, player) && newPoints == Points(current, player);
      assert dungeon == Classify(dungeonMap, change);
      diff := diff[player := ChangeRecord(oldPoints, newPoints, change, dungeon)];
    }
  }

  /**
   * diff holds a record for each changed player among seen, and for no
   * other player.
   */
  predicate Recorded(dungeonMap: DungeonMap, previous: Snapshot, current: Snapshot, seen: set<string>, diff: ChangeSet) {
    && (forall player :: player in diff ==> player in seen && Changed(previous, current, player))
    && (forall player :: player in seen && Changed(previous, current, player) ==>
         player in diff && diff[player] == RecordOf(dungeonMap, previous, current, player))
  }

  /** Visiting one more player of either snapshot records it exactly when it changed. */
  lemma RecordedStep(dungeonMap: DungeonMap, previous: Snapshot, current: Snapshot, seen: set<string>, player: string,
                     before: ChangeSet, after: ChangeSet)
    requires player in previous || player in current
    requires Recorded(dungeonMap, previous, current, seen, before)
    requires after == if Changed(previous, current, player) then before[player := RecordOf(dungeonMap, previous, current, player)] else before
    ensures Recorded(dungeonMap, previous, current, seen + {player}, after)
  {
  }

  /** A change set recording every player of either snapshot is the one DiffOf describes. */
  lemma DiffIsComplete(dungeonMap: DungeonMap, previous: Snapshot, current: Snapshot, diff: ChangeSet)
    requires |previous| > 0
    requires Recorded(dungeonMap, previous, current, previous.Keys + current.Keys, diff)
    ensures Some(diff) == DiffOf(dungeonMap, previous, current)
  {
    var expected := DiffOf(dungeonMap, previous, current).value;
    assert diff.Keys == expected.Keys;
    assert diff == expected;
  }

  /** Cold start: with nothing to compare against there is no result, not an empty one. */
  lemma ColdStart(dungeonMap: DungeonMap, current: Snapshot)
    ensures DiffOf(dungeonMap, map[], current) == None
    ensures DiffOf(dungeonMap, map[], current) != Some(map[])
  {
  }

  /**
   * The change set has a record for exactly the players of either snapshot
   * whose total differs (absent counting as 0), holding both totals, their
   * nonzero difference and its classification.
   */
  lemma DiffRecords(dungeonMap: DungeonMap, previous: Snapshot, current: Snapshot, player: string)
    requires |previous| > 0
    ensures DiffOf(dungeonMap, previous, current).Some?
    ensures var d := DiffOf(dungeonMap, previous, current).value;
      && (player in d <==> (player in previous || player in current) && Points(previous, player) != Points(current, player))
      && (player in d ==>
           && d[player].oldPoints == Points(previous, player)
           && d[player].newPoints == Points(current, player)
           && d[player].change == d[player].newPoints - d[player].oldPoints != 0)
  {
  }

  /**
   * The sign rule: a fall in points is always a loss, whatever the
   * catalog holds; a rise is attributed to the dungeons awarding that many points.
   */
  lemma SignRule(dungeonMap: DungeonMap, previous: Snapshot, current: Snapshot, player: string)
    requires |previous| > 0
    requires player in DiffOf(dungeonMap, previous, current).value
    ensures var r := DiffOf(dungeonMap, previous, current).value[player];
      && (r.change < 0 ==> r.dungeon == Loss)
      && (r.change > 0 ==> r.dungeon == Lookup(dungeonMap, r.change) && r.dungeon != Loss)
  {
  }

  /** Comparing a snapshot with itself finds no change. */
  lemma DiffWithItself(dungeonMap: DungeonMap, s: Snapshot)
    requires |s| > 0
    ensures DiffOf(dungeonMap, s, s) == Some(map[])
  {
  }

  /**
   * Swapping the snapshots keeps the same players and negates every
   * change; the totals trade places.
   */
  lemma Antisymmetry(dungeonMap: DungeonMap, a: Snapshot, b: Snapshot)
    requires |a| > 0 && |b| > 0
    ensures DiffOf(dungeonMap, a, b).value.Keys == DiffOf(dungeonMap, b, a).value.Keys
    ensures forall player :: player in DiffOf(dungeonMap, a, b).value ==>
      && DiffOf(dungeonMap, b, a).value[player].change == -DiffOf(dungeonMap, a, b).value[player].change
      && DiffOf(dungeonMap, b, a).value[player].oldPoints == DiffOf(dungeonMap, a, b).value[player].newPoints
      && DiffOf(dungeonMap, b, a).value[player].newPoints == DiffOf(dungeonMap, a, b).value[player].oldPoints
  {
  }
}
