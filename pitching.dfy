/**
 * The pitching page: the pitching statistics of the qualified pitchers, indexed
 * by `Name (Team)`, and a scatter plot of every pitcher on two chosen statistics.
 */
module Pitching {
  import opened Seqs
  import opened Frame
  import opened DataFrames
  import PlayerTables

  /** The statistic columns of the allow-list, in blocks small enough to reason
      about one at a time. */
  const Stats0: seq<string> :=
    ["W",
     "L",
     "G",
     "IP",
     "TBF",
     "H",
     "R"]
  const Stats1: seq<string> :=
    ["ER",
     "HR",
     "BB",
     "HBP",
     "SO",
     "K/9",
     "BB/9"]
  const Stats2: seq<string> :=
    ["K/BB",
     "AVG",
     "ERA",
     "WHIP",
     "BABIP",
     "FIP",
     "WAR"]

  /** The dictionary's labels, aligned with the statistic columns. */
  const Labels0: seq<string> :=
    ["Wins (W)",
     "Losses (L)",
     "Games Played (G)",
     "Innings Pitched (IP)",
     "Total Batters Faced (TBF)",
     "Hits (H)",
     "Runs Scored Against (R)"]
  const Labels1: seq<string> :=
    ["Earned Runs (ER)",
     "Home Runs Allowed (HR)",
     "Walks (BB)",
     "Batters Hit By Pitches (HBP)",
     "Strikeouts (SO)",
     "Number of Strikeouts Per 9 Innings (K/9)",
     "Number of Walks Per 9 Innings (BB/9)"]
  const Labels2: seq<string> :=
    ["Strikeout to Walk Ratio (K/BB)",
     "Opponents' Batting Average (AVG)",
     "Earned Run Average (ERA)",
     "Walks And Hits Per Inning Pitched (WHIP)",
     "Batting Average on Balls in Play (BABIP)",
     "Fielding Independent Pitching (FIP)",
     "Wins Above Replacement (WAR)"]

  /** The statistic columns of the allow-list, in the order written. The keys of
      the rename dictionary, `RenameKeys`, are the same list. */
  const StatColumns: seq<string> := Stats0 + Stats1 + Stats2

  /** The labels the dictionary gives those columns, in the same order. */
  const StatLabels: seq<string> := Labels0 + Labels1 + Labels2

  /** The keys of the rename dictionary, written out as the dictionary lists them. */
  const RenameKeys: seq<string> :=
    ["W", "L", "G", "IP", "TBF", "H", "R", "ER",
     "HR", "BB", "HBP", "SO", "K/9", "BB/9", "K/BB", "AVG",
     "ERA", "WHIP", "BABIP", "FIP", "WAR"]

  /** The dictionary renames exactly the allow-list's statistic columns, in the
      same order: every selected statistic has one rename entry and no entry is idle. */
  lemma RenameKeysAreColumns()
    ensures RenameKeys == StatColumns
  {
  }

  lemma ColumnBlocksDistinct()
    ensures Distinct(Stats0) && Distinct(Stats1) && Distinct(Stats2)
  {
  }

  lemma ColumnBlocksDisjoint()
    ensures Disjoint(Stats0, Stats1)
    ensures Disjoint(Stats0, Stats2)
    ensures Disjoint(Stats1, Stats2)
  {
  }

  lemma LabelBlocksDistinct()
    ensures Distinct(Labels0) && Distinct(Labels1) && Distinct(Labels2)
  {
  }

  lemma LabelBlocksDisjoint()
    ensures Disjoint(Labels0, Labels1)
    ensures Disjoint(Labels0, Labels2)
    ensures Disjoint(Labels1, Labels2)
  {
  }

  lemma IdentifiersApart()
    ensures Disjoint(PlayerTables.Ids, Stats0)
    ensures Disjoint(PlayerTables.Ids, Stats1)
    ensures Disjoint(PlayerTables.Ids, Stats2)
    ensures Disjoint(PlayerTables.Ids, Labels0)
    ensures Disjoint(PlayerTables.Ids, Labels1)
    ensures Disjoint(PlayerTables.Ids, Labels2)
    ensures PlayerTables.KeyColumn !in Labels0
    ensures PlayerTables.KeyColumn !in Labels1
    ensures PlayerTables.KeyColumn !in Labels2
  {
  }

  /** The page's columns and labels meet what the shared construction needs. */
  lemma ConfigHolds()
    ensures PlayerTables.Config(StatColumns, StatLabels) && |StatLabels| == 21
  {
    ColumnBlocksDistinct();
    ColumnBlocksDisjoint();
    LabelBlocksDistinct();
    LabelBlocksDisjoint();
    IdentifiersApart();
    DistinctBlocks3(Stats0, Stats1, Stats2);
    DistinctBlocks3(Labels0, Labels1, Labels2);
    DisjointBlocks3(PlayerTables.Ids, Stats0, Stats1, Stats2);
    DisjointBlocks3(PlayerTables.Ids, Labels0, Labels1, Labels2);
  }

  /** The page's table, built at import time from the fetched table. */
  function Build(raw: Table): Result<Table>
    requires Valid(raw)
  {
    ConfigHolds();
    PlayerTables.Build(raw, StatColumns, StatLabels)
  }

  /** The construction run on a DataFrame object, as the page does it. */
  method Load(raw: Table) returns (r: Result<DataFrame>)
    requires Valid(raw)
    ensures r.Ok? <==> Build(raw).Ok?
    ensures r.Err? ==> r.error == Build(raw).error
    ensures r.Ok? ==> fresh(r.value) && r.value.Value() == Build(raw).value
  {
    ConfigHolds();
    r := PlayerTables.Load(raw, StatColumns, StatLabels);
  }

  /** The fetched table holds the allow-list's columns (the identifiers and the
      statistic columns), and every name and team is text. */
  predicate Fetched(raw: Table) {
    Valid(raw) && Present(raw, PlayerTables.Ids) && Present(raw, StatColumns) && PlayerTables.TextIdentifiers(raw)
  }

  /** The page's table offers exactly the twenty-one labels as statistics, in
      dictionary order, and is indexed by every fetched pitcher's key, in fetch
      order; under each label it holds the fetched cells of the column the label
      renames. */
  lemma Built(raw: Table)
    requires Fetched(raw)
    ensures Build(raw).Ok? && Valid(Build(raw).value)
    ensures StatList(Build(raw).value) == StatLabels && |StatLabels| == 21
    ensures Build(raw).value.index == Keyed(PlayerTables.KeyColumn, PlayerTables.Keys(raw))
    ensures forall i, k :: 0 <= i < |raw.rows| && 0 <= k < |StatLabels| ==>
              StatColumns[k] in raw.rows[i] && StatLabels[k] in Build(raw).value.rows[i] &&
              Build(raw).value.rows[i][StatLabels[k]] == raw.rows[i][StatColumns[k]]
  {
    ConfigHolds();
    PlayerTables.Built(raw, StatColumns, StatLabels);
    PlayerTables.BuiltValid(raw, StatColumns, StatLabels);
  }

  /** The construction raises KeyError when an allow-list column is missing and
      TypeError when a name or team is not text. */
  lemma BuildFails(raw: Table)
    requires Valid(raw)
    ensures !(Present(raw, PlayerTables.Ids) && Present(raw, StatColumns)) ==> Build(raw) == Err(KeyError)
    ensures Present(raw, PlayerTables.Ids) && Present(raw, StatColumns) && !PlayerTables.TextIdentifiers(raw) ==>
              Build(raw) == Err(TypeError)
  {
    ConfigHolds();
    PlayerTables.BuildFails(raw, StatColumns, StatLabels);
  }

  /** The initial values of the x-axis and y-axis dropdowns. */
  const InitialX: string := "Innings Pitched (IP)"
  const InitialY: string := "Earned Run Average (ERA)"

  /** Both initial axis values are statistics the dropdowns offer. */
  lemma InitialAxesOffered(raw: Table)
    requires Fetched(raw)
    ensures Build(raw).Ok?
    ensures InitialX in StatList(Build(raw).value) && InitialY in StatList(Build(raw).value)
  {
    Built(raw);
    InitialAxesAreLabels();
  }

  lemma InitialAxesAreLabels()
    ensures InitialX in StatLabels && InitialY in StatLabels
  {
    assert Labels0[3] == InitialX;
    assert Labels2[2] == InitialY;
  }

  /** One plotted point: the name shown on hover and the two coordinates. */
  datatype Point = Point(name: Cell, x: Cell, y: Cell)

  /** `px.scatter(table, x=x, y=y, hover_name=table.index)`: one point per row of
      the whole table, in row order, labelled by the row's index key. The chosen
      names are used as they are; one that is not a column makes plotly raise
      ValueError. */
  function Charts(t: Table, x: string, y: string): (r: Result<seq<Point>>)
    requires Valid(t) && t.index.Keyed?
    ensures r.Ok? <==> x in t.columns && y in t.columns
    ensures r.Err? ==> r.error == ValueError
    ensures r.Ok? ==> |r.value| == |t.rows|
    ensures r.Ok? ==> forall i :: 0 <= i < |t.rows| ==>
              r.value[i] == Point(t.index.keys[i], t.rows[i][x], t.rows[i][y])
  {
    if x in t.columns && y in t.columns then
      Ok(seq(|t.rows|, i requires 0 <= i < |t.rows| => Point(t.index.keys[i], t.rows[i][x], t.rows[i][y])))
    else
      Err(ValueError)
  }

  /** For two offered statistics the plot has a point for every fetched pitcher,
      in fetch order, labelled by the pitcher's key, at the pitcher's fetched
      values of the two columns the labels rename. */
  lemma ChartsEveryPitcher(raw: Table, x: string, y: string)
    requires Fetched(raw) && x in StatLabels && y in StatLabels
    ensures Build(raw).Ok? && Valid(Build(raw).value) && Build(raw).value.index.Keyed?
    ensures var r := Charts(Build(raw).value, x, y);
            var keys := PlayerTables.Keys(raw);
            var cx, cy := StatColumns[IndexOf(StatLabels, x)], StatColumns[IndexOf(StatLabels, y)];
            && r.Ok? && |r.value| == |raw.rows|
            && forall i :: 0 <= i < |raw.rows| ==> r.value[i] == Point(keys[i], raw.rows[i][cx], raw.rows[i][cy])
  {
    Built(raw);
  }

  /** No default is substituted: an empty axis choice is not a column, so the
      callback raises instead of plotting. */
  lemma EmptyAxisRaises(raw: Table, other: string)
    requires Fetched(raw)
    ensures Build(raw).Ok? && Valid(Build(raw).value) && Build(raw).value.index.Keyed?
    ensures Charts(Build(raw).value, "", other) == Err(ValueError)
    ensures Charts(Build(raw).value, other, "") == Err(ValueError)
  {
    Built(raw);
    ColumnsNotEmpty();
  }

  /** No label is the empty string. */
  lemma ColumnsNotEmpty()
    ensures "" !in StatLabels
  {
    assert forall k :: 0 <= k < |StatLabels| ==> |StatLabels[k]| > 0;
  }
}
