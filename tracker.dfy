/**
 * The tracker object: the catalog it loads at start-up and the bounded
 * history of snapshots that update appends to.
 */
module Tracker {
  import opened Wrappers
  import opened Catalog
  import opened Diff

  /** update keeps only this many of the most recent snapshots. */
  const HISTORY_LIMIT := 30

  /** One saved snapshot and the moment it was taken. */
  datatype HistoryEntry = HistoryEntry(timestamp: int, data: Snapshot)

  /** The slice history[-30:]: the whole list when it is short enough, otherwise its last 30 entries. */
  function Keep(h: seq<HistoryEntry>): seq<HistoryEntry> {
    if |h| <= HISTORY_LIMIT then h else h[|h| - HISTORY_LIMIT..]
  }

  /** The history after update appends e and truncates. */
  function Appended(h: seq<HistoryEntry>, e: HistoryEntry): seq<HistoryEntry> {
    Keep(h + [e])
  }

  /** The history after a run of successful updates appending es in order. */
  function AppendAll(h: seq<HistoryEntry>, es: seq<HistoryEntry>): seq<HistoryEntry>
    decreases |es|
  {
    if es == [] then h else AppendAll(Appended(h, es[0]), es[1..])
  }

  /** The snapshot the next diff compares against: the newest entry's, or {} with no history. */
  function Previous(h: seq<HistoryEntry>): Snapshot {
    if h == [] then map[] else h[|h| - 1].data
  }

  /**
   * Append then truncate: the length grows by one up to 30, the new entry
   * is last, and what remains is a suffix of the old history then the
   * entry, so the oldest entries go first.
   */
  lemma AppendedBound(h: seq<HistoryEntry>, e: HistoryEntry)
    ensures var r := Appended(h, e);
      && |r| == (if |h| + 1 < HISTORY_LIMIT then |h| + 1 else HISTORY_LIMIT)
      && r[|r| - 1] == e
      && r == (h + [e])[|h| + 1 - |r|..]
  {
  }

  /** Once the history is full, each update evicts exactly its oldest entry. */
  lemma AppendedEvictsOldest(h: seq<HistoryEntry>, e: HistoryEntry)
    requires |h| == HISTORY_LIMIT
    ensures Appended(h, e) == h[1..] + [e]
  {
  }

  /** The next update compares against the snapshot this one saved. */
  lemma AppendedIsPrevious(h: seq<HistoryEntry>, e: HistoryEntry)
    ensures Previous(Appended(h, e)) == e.data
  {
    AppendedBound(h, e);
  }

  /** Truncating before appending keeps the same last 30 as truncating after. */
  lemma KeepThenAppend(s: seq<HistoryEntry>, e: HistoryEntry)
    ensures Appended(Keep(s), e) == Keep(s + [e])
  {
    if |s| > HISTORY_LIMIT {
      assert (Keep(s) + [e])[1..] == (s + [e])[|s| + 1 - HISTORY_LIMIT..];
    }
  }

  /**
   * However many updates run, the history holds the last 30 of all the
   * snapshots it has seen, in the order they were taken.
   */
  lemma {:induction false} AppendAllKeepsLatest(h: seq<HistoryEntry>, es: seq<HistoryEntry>)
    requires |h| <= HISTORY_LIMIT
    ensures AppendAll(h, es) == Keep(h + es)
  {
    if es != [] {
      KeepsFrom(h, es);
    }
  }

  lemma {:induction false} KeepsFrom(h: seq<HistoryEntry>, es: seq<HistoryEntry>)
    requires es != []
    ensures AppendAll(h, es) == Keep(h + es)
    decreases |es|
  {
    var rest := es[1..];
    assert h + es == (h + [es[0]]) + rest;
    if rest == [] {
      assert es == [es[0]];
    } else {
      KeepsFrom(Appended(h, es[0]), rest);
      KeepAfter(h + [es[0]], rest);
    }
  }

  /** Truncating a prefix before appending a non-empty run changes nothing in the end. */
  lemma {:induction false} KeepAfter(s: seq<HistoryEntry>, rest: seq<HistoryEntry>)
    requires rest != []
    ensures Keep(Keep(s) + rest) == Keep(s + rest)
    decreases |rest|
  {
    var init := rest[..|rest| - 1];
    var e := rest[|rest| - 1];
    assert Keep(s) + rest == (Keep(s) + init) + [e];
    assert s + rest == (s + init) + [e];
    if init == [] {
      assert Keep(s) + init == Keep(s);
      assert s + init == s;
      KeepThenAppend(s, e);
    } else {
      KeepAfter(s, init);
      KeepThenAppend(Keep(s) + init, e);
      KeepThenAppend(s + init, e);
    }
  }

  /** A long enough run of updates leaves only its own last 30 snapshots. */
  lemma LongRunForgetsStart(h: seq<HistoryEntry>, es: seq<HistoryEntry>)
    requires |h| <= HISTORY_LIMIT && |es| >= HISTORY_LIMIT
    ensures AppendAll(h, es) == es[|es| - HISTORY_LIMIT..]
  {
    AppendAllKeepsLatest(h, es);
    assert (h + es)[|h + es| - HISTORY_LIMIT..] == es[|es| - HISTORY_LIMIT..];
  }

  /** DungeonPointsTracker, reduced to the state update reads and writes. */
  class DungeonPointsTracker {
    var dungeonMap: DungeonMap
    var history: seq<HistoryEntry>

    /**
     * Start-up: the catalog from the rows of the catalog file (None when
     * the file does not exist, giving an empty catalog) and the history as
     * loaded from the data file.
     */
    constructor (catalogRows: Option<seq<CatalogRow>>, loaded: seq<HistoryEntry>)
      ensures dungeonMap == (if catalogRows.None? then map[] else Load(catalogRows.value))
      ensures history == loaded
    {
      var catalog: DungeonMap := map[];
      if catalogRows.Some? {
        catalog := LoadCatalog(catalogRows.value);
      }
      dungeonMap := catalog;
      history := loaded;
    }

    /**
     * One update with the snapshot the scraper returned (None when the
     * download failed) taken at moment now. A failed or empty download
     * changes nothing. Otherwise the result is the diff against the newest
     * saved snapshot, and the new snapshot is appended to the bounded history.
     */
    method Update(fetched: Option<Snapshot>, now: int) returns (diff: Option<ChangeSet>)
      modifies this
      ensures dungeonMap == old(dungeonMap)
      ensures fetched.None? || |fetched.value| == 0 ==> diff.None? && history == old(history)
      ensures fetched.Some? && |fetched.value| > 0 ==>
        && diff == DiffOf(dungeonMap, Previous(old(history)), fetched.value)
        && history == Appended(old(history), HistoryEntry(now, fetched.value))
    {
      if fetched.None? {
        return None;
      }
      var newData := fetched.value;
      if |newData| == 0 {
        return None;
      }
      var oldData := if history != [] then history[|history| - 1].data else map[];
      diff := CalculateDiff(dungeonMap, oldData, newData);
      history := history + [HistoryEntry(now, newData)];
      if |history| > HISTORY_LIMIT {
        history := history[|history| - HISTORY_LIMIT..];
      }
    }
  }
}
