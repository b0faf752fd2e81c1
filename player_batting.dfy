/**
 * The player-batting page: the batting statistics of the qualified hitters,
 * indexed by `Name (Team)`, and a bar chart of one statistic for the chosen
 * players.
 */
module PlayerBatting {
  import opened Seqs
  import opened Frame
  import opened DataFrames
  import opened BarChart
  import PlayerTables

  /** The statistic columns of the allow-list, in blocks small enough to reason
      about one at a time. */
  const Stats0: seq<string> :=
    ["G",
     "PA",
     "H",
     "2B",
     "3B",
     "HR",
     "R"]
  const Stats1: seq<string> :=
    ["RBI",
     "SO",
     "BB",
     "IBB",
     "HBP",
     "SB",
     "AVG"]
  const Stats2: seq<string> :=
    ["OBP",
     "SLG",
     "OPS",
     "wOBA",
     "wRC",
     "WAR"]

  /** The dictionary's labels, aligned with the statistic columns. */
  const Labels0: seq<string> :=
    ["Games Played (G)",
     "Plate Appearances (PA)",
     "Hits (H)",
     "Doubles (2B)",
     "Triples (3B)",
     "Home Runs (HR)",
     "Runs Scored (R)"]
  const Labels1: seq<string> :=
    ["Runs Batted In (RBI)",
     "Strikeouts (SO)",
     "Walks (BB)",
     "Intentional Walks (IBB)",
     "Hit By Pitches (HBP)",
     "Stolen Bases",
     "Batting Average (AVG)"]
  const Labels2: seq<string> :=
    ["On-Base Percentage (OBP)",
     "Slugging Percentage (SLG)",
     "On-Base Plus Slugging (OPS)",
     "Weighted On-Base Average (wOBA)",
     "Weighted Runs Created (wRC)",
     "Wins Above Replacement (WAR)"]

  /** The statistic columns of the allow-list, in the order written. The keys of
      the rename dictionary, `RenameKeys`, are the same list. */
  const StatColumns: seq<string> := Stats0 + Stats1 + Stats2

  /** The labels the dictionary gives those columns, in the same order. */
  const StatLabels: seq<string> := Labels0 + Labels1 + Labels2

  /** The keys of the rename dictionary, written out as the dictionary lists them. */
  const RenameKeys: seq<string> :=
    ["G", "PA", "H", "2B", "3B", "HR", "R", "RBI",
     "SO", "BB", "IBB", "HBP", "SB", "AVG", "OBP", "SLG",
     "OPS", "wOBA", "wRC", "WAR"]

  /** The dictionary renames exactly the allow-list's statistic columns, in the
      same order: every selected statistic has one rename entry and no entry is idle. */
  lemma RenameKeysAreColumns()
    ensures RenameKeys == StatColumns
  {
  }

  lemma ColumnBlocksDistinct()
    ensures Distinct(Stats0) && Distinct(Stats1) && Distinct(Stats2)
  {
  }

  lemma ColumnBlocksDisjoint()
    ensures Disjoint(Stats0, Stats1)
    ensures Disjoint(Stats0, Stats2)
    ensures Disjoint(Stats1, Stats2)
  {
  }

  lemma LabelBlocksDistinct()
    ensures Distinct(Labels0) && Distinct(Labels1) && Distinct(Labels2)
  {
  }

  lemma LabelBlocksDisjoint()
    ensures Disjoint(Labels0, Labels1)
    ensures Disjoint(Labels0, Labels2)
    ensures Disjoint(Labels1, Labels2)
  {
  }

  lemma IdentifiersApart()
    ensures Disjoint(PlayerTables.Ids, Stats0)
    ensures Disjoint(PlayerTables.Ids, Stats1)
    ensures Disjoint(PlayerTables.Ids, Stats2)
    ensures Disjoint(PlayerTables.Ids, Labels0)
    ensures Disjoint(PlayerTables.Ids, Labels1)
    ensures Disjoint(PlayerTables.Ids, Labels2)
    ensures PlayerTables.KeyColumn !in Labels0
    ensures PlayerTables.KeyColumn !in Labels1
    ensures PlayerTables.KeyColumn !in Labels2
  {
  }

  /** The page's columns and labels meet what the shared construction needs. */
  lemma ConfigHolds()
    ensures PlayerTables.Config(StatColumns, StatLabels) && |StatLabels| == 20
  {
    ColumnBlocksDistinct();
    ColumnBlocksDisjoint();
    LabelBlocksDistinct();
    LabelBlocksDisjoint();
    IdentifiersApart();
    DistinctBlocks3(Stats0, Stats1, Stats2);
    DistinctBlocks3(Labels0, Labels1, Labels2);
    DisjointBlocks3(PlayerTables.Ids, Stats0, Stats1, Stats2);
    DisjointBlocks3(PlayerTables.Ids, Labels0, Labels1, Labels2);
  }

  /** The page's table, built at import time from the fetched table. */
  function Build(raw: Table): Result<Table>
    requires Valid(raw)
  {
    ConfigHolds();
    PlayerTables.Build(raw, StatColumns, StatLabels)
  }

  /** The construction run on a DataFrame object, as the page does it. */
  method Load(raw: Table) returns (r: Result<DataFrame>)
    requires Valid(raw)
    ensures r.Ok? <==> Build(raw).Ok?
    ensures r.Err? ==> r.error == Build(raw).error
    ensures r.Ok? ==> fresh(r.value) && r.value.Value() == Build(raw).value
  {
    ConfigHolds();
    r := PlayerTables.Load(raw, StatColumns, StatLabels);
  }

  /** The fetched table holds the allow-list's columns (the identifiers and the
      statistic columns), and every name and team is text. */
  predicate Fetched(raw: Table) {
    Valid(raw) && Present(raw, PlayerTables.Ids) && Present(raw, StatColumns) && PlayerTables.TextIdentifiers(raw)
  }

  /** The page's table offers exactly the twenty labels as statistics, in
      dictionary order, and every fetched player's key, in fetch order; under each
      label it holds the fetched cells of the column the label renames. */
  lemma Built(raw: Table)
    requires Fetched(raw)
    ensures Build(raw).Ok? && Valid(Build(raw).value) && Build(raw).value.index.Keyed?
    ensures StatList(Build(raw).value) == StatLabels && |StatLabels| == 20
    ensures Build(raw).value.index.name == PlayerTables.KeyColumn
    ensures EntityList(Build(raw).value) == PlayerTables.Keys(raw)
    ensures forall i, k :: 0 <= i < |raw.rows| && 0 <= k < |StatLabels| ==>
              StatColumns[k] in raw.rows[i] && StatLabels[k] in Build(raw).value.rows[i] &&
              Build(raw).value.rows[i][StatLabels[k]] == raw.rows[i][StatColumns[k]]
  {
    ConfigHolds();
    PlayerTables.Built(raw, StatColumns, StatLabels);
    PlayerTables.BuiltValid(raw, StatColumns, StatLabels);
  }

  /** The construction raises KeyError when an allow-list column is missing and
      TypeError when a name or team is not text. */
  lemma BuildFails(raw: Table)
    requires Valid(raw)
    ensures !(Present(raw, PlayerTables.Ids) && Present(raw, StatColumns)) ==> Build(raw) == Err(KeyError)
    ensures Present(raw, PlayerTables.Ids) && Present(raw, StatColumns) && !PlayerTables.TextIdentifiers(raw) ==>
              Build(raw) == Err(TypeError)
  {
    ConfigHolds();
    PlayerTables.BuildFails(raw, StatColumns, StatLabels);
  }

  /** The statistic used when none is chosen, and the statistic dropdown's initial value. */
  const DefaultStat: string := "Home Runs (HR)"
  const InitialStat: string := "Home Runs (HR)"

  /** The player shown when none is chosen, and the player dropdown's initial value. */
  const DefaultPlayer: Cell := Text("Aaron Judge (NYY)")
  const InitialPlayers: seq<Cell> := [Text("Aaron Judge (NYY)")]

  /** The callback's data frame for the chosen statistic and players. */
  function Charts(t: Table, stat: string, players: seq<Cell>): Result<Table>
    requires Valid(t) && t.index.Keyed?
  {
    Subset(t, stat, players, DefaultStat, DefaultPlayer)
  }

  /** Clearing both dropdowns gives the chart the page opens with. */
  lemma ClearedIsInitial(t: Table)
    requires Valid(t) && t.index.Keyed?
    ensures Charts(t, "", []) == Charts(t, InitialStat, InitialPlayers)
  {
  }

  /** The default statistic is one of the statistics the table offers. */
  lemma DefaultStatOffered(raw: Table)
    requires Fetched(raw)
    ensures Build(raw).Ok? && DefaultStat in StatList(Build(raw).value)
  {
    Built(raw);
    assert Labels0[5] == DefaultStat;
  }

  /** When each fetched (name, team) pair is unique and no team holds an opening
      parenthesis, a choice of known players and of an offered statistic gives
      one bar per chosen player, in the order chosen, with that player's fetched
      value of the statistic. */
  lemma ChartsOnePerPlayer(raw: Table, t: Table, stat: string, players: seq<Cell>)
    requires Fetched(raw) && Build(raw) == Ok(t)
    requires forall i :: 0 <= i < |raw.rows| ==> '(' !in raw.rows[i]["Team"].text
    requires forall i, j :: 0 <= i < j < |raw.rows| ==>
               raw.rows[i]["Name"] != raw.rows[j]["Name"] || raw.rows[i]["Team"] != raw.rows[j]["Team"]
    requires forall k :: k in Entities(players, DefaultPlayer) ==> k in PlayerTables.Keys(raw)
    requires Stat(stat, DefaultStat) in StatLabels
    ensures Valid(t) && t.index.Keyed?
    ensures var s, sel := Stat(stat, DefaultStat), Entities(players, DefaultPlayer);
            var r := Charts(t, stat, players);
            && r.Ok? && r.value.columns == [PlayerTables.KeyColumn, s] && |r.value.rows| == |sel|
            && forall j :: 0 <= j < |sel| ==>
                 var p, c := IndexOf(PlayerTables.Keys(raw), sel[j]), IndexOf(StatLabels, s);
                 c < |StatColumns| && StatColumns[c] in raw.rows[p] &&
                 r.value.rows[j] == map[PlayerTables.KeyColumn := sel[j], s := raw.rows[p][StatColumns[c]]]
  {
    ConfigHolds();
    PlayerTables.LocateOnePerKey(raw, StatColumns, StatLabels,
                                 Entities(players, DefaultPlayer), Stat(stat, DefaultStat));
  }
}
