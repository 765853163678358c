/**
 * The points-to-dungeon catalog: building it from the rows of the catalog
 * file (_load_dungeon_map) and naming the dungeon behind a gain of points
 * (_get_dungeon_name), with the loss sentinel of calculate_diff.
 */
module Catalog {
  import opened Wrappers
  import opened Text

  /**
   * One row of the catalog file, as csv.DictReader yields it: the cells of
   * the columns "Dung" and "Dung body (plast)", None when the row is too
   * short to have that cell.
   */
  datatype CatalogRow = CatalogRow(dung: Option<string>, points: Option<string>)

  /** Point value -> names of the dungeons awarding it, in file order. */
  type DungeonMap = map<int, seq<string>>

  predicate Complete(row: CatalogRow) {
    row.dung.Some? && row.points.Some?
  }

  /** The point value of a row's points cell; None when blank or not an integer. */
  function RowPoints(cell: string): Option<int> {
    var p := Strip(cell);
    if p == "" then None else ParseInt(p)
  }

  /**
   * The catalog once the row loop has consumed every row of rows (Load only
   * lets it see complete rows).
   */
  function Fold(rows: seq<CatalogRow>): DungeonMap {
    if rows == [] then map[]
    else AddRow(Fold(rows[..|rows| - 1]), rows[|rows| - 1])
  }

  /** One turn of the row loop: append the row's name at its point value, or skip the row. */
  function AddRow(m: DungeonMap, row: CatalogRow): DungeonMap {
    if !Complete(row) then m
    else match RowPoints(row.points.value)
      case None => m
      case Some(p) => m[p := (if p in m then m[p] else []) + [Strip(row.dung.value)]]
  }

  /**
   * How many rows the loop gets through: .strip() on a missing cell raises,
   * the handler returns the catalog built so far.
   */
  function CompletePrefix(rows: seq<CatalogRow>): (k: nat)
    ensures k <= |rows|
    ensures forall i :: 0 <= i < k ==> Complete(rows[i])
    ensures k < |rows| ==> !Complete(rows[k])
  {
    if rows == [] || !Complete(rows[0]) then 0 else 1 + CompletePrefix(rows[1..])
  }

  /** The catalog _load_dungeon_map returns for the rows of an existing file. */
  function Load(rows: seq<CatalogRow>): DungeonMap {
    Fold(rows[..CompletePrefix(rows)])
  }

  /** The names of the rows whose points cell parses to p, in row order. */
  function NamesAt(rows: seq<CatalogRow>, p: int): seq<string> {
    if rows == [] then []
    else
      var last := rows[|rows| - 1];
      NamesAt(rows[..|rows| - 1], p) + (if Named(last, p) then [Strip(last.dung.value)] else [])
  }

  /** The row is complete and its points cell parses to p. */
  predicate Named(row: CatalogRow, p: int) {
    Complete(row) && RowPoints(row.points.value) == Some(p)
  }

  /** The row loop of _load_dungeon_map. */
  method LoadCatalog(rows: seq<CatalogRow>) returns (dungeonMap: DungeonMap)
    ensures dungeonMap == Load(rows)
  {
    dungeonMap := map[];
    var i := 0;
    ghost var complete := CompletePrefix(rows);
    assert rows[..0] == [];
    while i < |rows|
      invariant i <= complete
      invariant dungeonMap == Fold(rows[..i])
    {
      var row := rows[i];
      if row.dung.None? || row.points.None? {
        PrefixEnds(rows, i);
        return;
      }
      PrefixContinues(rows, i);
      dungeonMap := NextRow(rows, i, dungeonMap);
      i := i + 1;
    }
    assert rows[..i] == rows;
  }

  lemma PrefixEnds(rows: seq<CatalogRow>, i: nat)
    requires i <= CompletePrefix(rows) && i < |rows| && !Complete(rows[i])
    ensures i == CompletePrefix(rows)
  {
  }

  lemma PrefixContinues(rows: seq<CatalogRow>, i: nat)
    requires i <= CompletePrefix(rows) && i < |rows| && Complete(rows[i])
    ensures i + 1 <= CompletePrefix(rows)
  {
  }

  /** One turn of the row loop over a row that has both cells. */
  method NextRow(rows: seq<CatalogRow>, i: nat, m: DungeonMap) returns (dungeonMap: DungeonMap)
    requires i < |rows| && Complete(rows[i]) && m == Fold(rows[..i])
    ensures dungeonMap == Fold(rows[..i + 1])
  {
    var row := rows[i];
    dungeonMap := ReadRow(m, row.dung.value, row.points.value);
    assert row == CatalogRow(Some(row.dung.value), Some(row.points.value));
    FoldStep(rows, i, m, dungeonMap);
  }

  /** The body of the row loop, for a row that has both cells. */
  method ReadRow(m: DungeonMap, dung: string, pointsCell: string) returns (dungeonMap: DungeonMap)
    ensures dungeonMap == AddRow(m, CatalogRow(Some(dung), Some(pointsCell)))
  {
    dungeonMap := m;
    ghost var expected := AddRow(m, CatalogRow(Some(dung), Some(pointsCell)));
    var dungeonName := Strip(dung);
    var pointsStr := Strip(pointsCell);
    if pointsStr != "" {
      var parsed := ParseInt(pointsStr);
      assert parsed == RowPoints(pointsCell);
      if parsed.Some? {
        var points := parsed.value;
        assert expected == m[points := (if points in m then m[points] else []) + [dungeonName]];
        if points !in dungeonMap {
          dungeonMap := dungeonMap[points := []];
        }
        ghost var created := dungeonMap;
        dungeonMap := dungeonMap[points := dungeonMap[points] + [dungeonName]];
        OpenThenAppend(m, created, points, dungeonName);
      } else {
        assert expected == m;
      }
    } else {
      assert RowPoints(pointsCell) == None;
    }
  }

  /** Creating an empty list when the key is missing, then appending, is one update. */
  lemma OpenThenAppend(before: DungeonMap, created: DungeonMap, p: int, name: string)
    requires created == if p in before then before else before[p := []]
    ensures created[p := created[p] + [name]] == before[p := (if p in before then before[p] else []) + [name]]
  {
  }

  /** One turn of the row loop extends the fold by one row. */
  lemma FoldStep(rows: seq<CatalogRow>, i: nat, before: DungeonMap, after: DungeonMap)
    requires i < |rows|
    requires before == Fold(rows[..i]) && after == AddRow(before, rows[i])
    ensures after == Fold(rows[..i + 1])
  {
    assert rows[..i + 1][..i] == rows[..i];
  }

  /** A row with a blank or non-integer points cell leaves the catalog as it was. */
  lemma SkippedRow(rows: seq<CatalogRow>, row: CatalogRow)
    requires Complete(row) && RowPoints(row.points.value) == None
    ensures Fold(rows + [row]) == Fold(rows)
  {
    assert (rows + [row])[..|rows|] == rows;
  }

  /** An accepted row appends its stripped name to the end of the list at its point value. */
  lemma AcceptedRow(rows: seq<CatalogRow>, row: CatalogRow, p: int)
    requires Complete(row) && RowPoints(row.points.value) == Some(p)
    ensures p in Fold(rows + [row])
    ensures Fold(rows + [row])[p] == (if p in Fold(rows) then Fold(rows)[p] else []) + [Strip(row.dung.value)]
    ensures forall q :: q != p ==> (q in Fold(rows + [row]) <==> q in Fold(rows))
    ensures forall q :: q != p && q in Fold(rows) ==> Fold(rows + [row])[q] == Fold(rows)[q]
  {
    assert (rows + [row])[..|rows|] == rows;
  }

  /**
   * The catalog holds exactly the point values some row parses to, and at
   * each the names of those rows in row order; so no list is empty.
   */
  lemma {:induction false} FoldIsNamesAt(rows: seq<CatalogRow>, p: int)
    ensures p in Fold(rows) <==> NamesAt(rows, p) != []
    ensures p in Fold(rows) ==> Fold(rows)[p] == NamesAt(rows, p)
  {
    if rows != [] {
      var init := rows[..|rows| - 1];
      var last := rows[|rows| - 1];
      FoldIsNamesAt(init, p);
      assert Fold(rows) == AddRow(Fold(init), last);
      assert NamesAt(rows, p) == NamesAt(init, p) + (if Named(last, p) then [Strip(last.dung.value)] else []);
    }
  }

  /** Every list in a loaded catalog is non-empty and lists its rows' names in row order. */
  lemma LoadIsNamesAt(rows: seq<CatalogRow>, p: int)
    ensures p in Load(rows) <==> NamesAt(rows[..CompletePrefix(rows)], p) != []
    ensures p in Load(rows) ==> Load(rows)[p] == NamesAt(rows[..CompletePrefix(rows)], p) && |Load(rows)[p]| > 0
  {
    FoldIsNamesAt(rows[..CompletePrefix(rows)], p);
  }

  /** Rows after the first one with a missing cell are never read. */
  lemma {:induction false} LoadStopsAtMissingCell(rows: seq<CatalogRow>, rest: seq<CatalogRow>, k: nat)
    requires k < |rows| && !Complete(rows[k])
    ensures Load(rows + rest) == Load(rows)
  {
    PrefixStops(rows, rest, k);
    assert (rows + rest)[..CompletePrefix(rows)] == rows[..CompletePrefix(rows)];
  }

  lemma {:induction false} PrefixStops(rows: seq<CatalogRow>, rest: seq<CatalogRow>, k: nat)
    requires k < |rows| && !Complete(rows[k])
    ensures CompletePrefix(rows + rest) == CompletePrefix(rows)
  {
    if Complete(rows[0]) {
      assert (rows + rest)[1..] == rows[1..] + rest;
      PrefixStops(rows[1..], rest, k - 1);
    }
  }

  /** What a nonzero change of points is attributed to. */
  datatype Label =
    | Loss                      // the points went down
    | Known(names: seq<string>) // the dungeons listed at that point value
    | Unknown(points: int)      // no dungeon awards that many points

  const LOSS_TEXT := "Ztráta bodů"
  const UNKNOWN_PREFIX := "Neznámý dungeon ("
  const UNKNOWN_SUFFIX := " bodů)"
  const NAME_SEPARATOR := " / "

  /** _get_dungeon_name as a tagged value. */
  function Lookup(dungeonMap: DungeonMap, points: int): Label {
    if points !in dungeonMap then Unknown(points) else Known(dungeonMap[points])
  }

  /** The sign split of calculate_diff: a loss, or the dungeon behind the gain. */
  function Classify(dungeonMap: DungeonMap, change: int): (l: Label)
    requires change != 0
    ensures l == Loss <==> change < 0
    ensures change > 0 ==> l == Lookup(dungeonMap, change)
  {
    if change > 0 then Lookup(dungeonMap, change) else Loss
  }

  /** The text written to the change log for a label. */
  function Render(l: Label): string {
    match l
    case Loss => LOSS_TEXT
    case Known(names) => if |names| == 1 then names[0] else Join(names, NAME_SEPARATOR)
    case Unknown(points) => UNKNOWN_PREFIX + IntToString(points) + UNKNOWN_SUFFIX
  }

  /** _get_dungeon_name: the text for a number of points. */
  function DungeonName(dungeonMap: DungeonMap, points: int): string {
    Render(Lookup(dungeonMap, points))
  }

  /**
   * A value missing from the catalog gives the "unknown dungeon" text, and
   * the number inside it parses back to the value.
   */
  lemma UnknownNameEmbedsPoints(dungeonMap: DungeonMap, points: int)
    requires points !in dungeonMap
    ensures var s := DungeonName(dungeonMap, points);
      && |UNKNOWN_PREFIX| + |UNKNOWN_SUFFIX| <= |s|
      && s[..|UNKNOWN_PREFIX|] == UNKNOWN_PREFIX
      && s[|s| - |UNKNOWN_SUFFIX|..] == UNKNOWN_SUFFIX
      && ParseInt(s[|UNKNOWN_PREFIX|..|s| - |UNKNOWN_SUFFIX|]) == Some(points)
  {
    var s := DungeonName(dungeonMap, points);
    var digits := IntToString(points);
    assert s == UNKNOWN_PREFIX + digits + UNKNOWN_SUFFIX;
    Framed(UNKNOWN_PREFIX, digits, UNKNOWN_SUFFIX);
    IntToStringRoundTrip(points);
  }

  /** The three parts of a concatenation can be cut back out of it. */
  lemma Framed(front: string, middle: string, back: string)
    ensures var s := front + middle + back;
      && s[..|front|] == front
      && s[|s| - |back|..] == back
      && s[|front|..|s| - |back|] == middle
  {
  }

  /** A value with one name gives that name. */
  lemma SingleName(dungeonMap: DungeonMap, points: int)
    requires points in dungeonMap && |dungeonMap[points]| == 1
    ensures DungeonName(dungeonMap, points) == dungeonMap[points][0]
  {
  }

  /**
   * A value with several names gives all of them, in list order, each
   * followed by " / " except the last, after which the text ends.
   */
  lemma SeveralNames(dungeonMap: DungeonMap, points: int, i: nat)
    requires points in dungeonMap && i < |dungeonMap[points]|
    ensures var names := dungeonMap[points];
      var s := DungeonName(dungeonMap, points);
      && JoinOffset(names, NAME_SEPARATOR, i) + |names[i]| <= |s|
      && s[JoinOffset(names, NAME_SEPARATOR, i)..JoinOffset(names, NAME_SEPARATOR, i) + |names[i]|] == names[i]
      && (i + 1 < |names| ==>
           && JoinOffset(names, NAME_SEPARATOR, i + 1) == JoinOffset(names, NAME_SEPARATOR, i) + |names[i]| + |NAME_SEPARATOR|
           && JoinOffset(names, NAME_SEPARATOR, i + 1) <= |s|
           && s[JoinOffset(names, NAME_SEPARATOR, i) + |names[i]|..JoinOffset(names, NAME_SEPARATOR, i + 1)] == NAME_SEPARATOR)
      && |s| == JoinOffset(names, NAME_SEPARATOR, |names| - 1) + |names[|names| - 1]|
  {
    var names := dungeonMap[points];
    JoinAt(names, NAME_SEPARATOR, i);
    JoinEnds(names, NAME_SEPARATOR);
    if i + 1 < |names| {
      JoinSeparatorAt(names, NAME_SEPARATOR, i);
    }
    if |names| == 1 {
      assert Join(names, NAME_SEPARATOR) == names[0];
    }
  }

  /** The loss text differs from every "unknown dungeon" text. */
  lemma LossIsNotUnknown(points: int)
    ensures Render(Loss) != Render(Unknown(points))
  {
    assert Render(Loss)[0] != Render(Unknown(points))[0];
  }
}
