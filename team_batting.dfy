/**
 * The team-batting page: the batting statistics of every club, indexed by the
 * team abbreviation, and a bar chart of one statistic for the chosen teams.
 */
module TeamBatting {
  import opened Seqs
  import opened Frame
  import opened Renames
  import Allowlist
  import opened DataFrames
  import opened BarChart

  /** The identifier columns at the head of the allow-list. */
  const Ids: seq<string> := ["Season", "Team"]

  /** The statistic columns of the allow-list, in blocks small enough to reason
      about one at a time. */
  const Stats0: seq<string> :=
    ["G",
     "PA",
     "H",
     "1B",
     "2B",
     "3B",
     "HR",
     "R"]
  const Stats1: seq<string> :=
    ["RBI",
     "SO",
     "K%",
     "BB",
     "BB%",
     "IBB",
     "BB/K",
     "HBP"]
  const Stats2: seq<string> :=
    ["SF",
     "SH",
     "SB",
     "CS",
     "AVG",
     "OBP",
     "SLG",
     "OPS"]
  const Stats3: seq<string> :=
    ["BABIP",
     "LD%",
     "GB%",
     "FB%",
     "wOBA",
     "wRC",
     "WAR"]

  /** The dictionary's labels, aligned with the statistic columns. */
  const Labels0: seq<string> :=
    ["Games Played (G)",
     "Plate Appearances (PA)",
     "Hits (H)",
     "Singles (1B)",
     "Doubles (2B)",
     "Triples (3B)",
     "Home Runs (HR)",
     "Runs Scored (R)"]
  const Labels1: seq<string> :=
    ["Runs Batted In (RBI)",
     "Strikeouts (SO)",
     "Strikeout Percentage (K%)",
     "Walks (BB)",
     "Walk Percentage (BB%)",
     "Intentional Walks (IBB)",
     "Walk-to-Strikeout Ratio (BB/K)",
     "Hit By Pitches (HBP)"]
  const Labels2: seq<string> :=
    ["Sacrifice Flies (SF)",
     "Sacrifice Hits (Bunts)",
     "Stolen Bases",
     "Caught Stealing (CS)",
     "Batting Average (AVG)",
     "On-Base Percentage (OBP)",
     "Slugging Percentage (SLG)",
     "On-Base Plus Slugging (OPS)"]
  const Labels3: seq<string> :=
    ["Batting Average on Balls in Play (BABIP)",
     "Line Drive Percentage (LD%)",
     "Ground Ball Percentage (GD%)",
     "Fly Ball Percentage (FB%)",
     "Weighted On-Base Average (wOBA)",
     "Weighted Runs Created (wRC)",
     "Wins Above Replacement (WAR)"]

  /** The statistic columns of the allow-list, in the order written. The keys of
      the rename dictionary, `RenameKeys`, are the same list. */
  const StatColumns: seq<string> := Stats0 + Stats1 + Stats2 + Stats3

  /** The labels the dictionary gives those columns, in the same order. */
  const StatLabels: seq<string> := Labels0 + Labels1 + Labels2 + Labels3

  /** The keys of the rename dictionary, written out as the dictionary lists them. */
  const RenameKeys: seq<string> :=
    ["G", "PA", "H", "1B", "2B", "3B", "HR", "R",
     "RBI", "SO", "K%", "BB", "BB%", "IBB", "BB/K", "HBP",
     "SF", "SH", "SB", "CS", "AVG", "OBP", "SLG", "OPS",
     "BABIP", "LD%", "GB%", "FB%", "wOBA", "wRC", "WAR"]

  /** The dictionary renames exactly the allow-list's statistic columns, in the
      same order: every selected statistic has one rename entry and no entry is idle. */
  lemma RenameKeysAreColumns()
    ensures RenameKeys == StatColumns
  {
  }

  lemma ColumnBlocksDistinct()
    ensures Distinct(Stats0) && Distinct(Stats1) && Distinct(Stats2) && Distinct(Stats3)
  {
  }

  lemma ColumnBlocksDisjoint()
    ensures Disjoint(Stats0, Stats1)
    ensures Disjoint(Stats0, Stats2)
    ensures Disjoint(Stats0, Stats3)
    ensures Disjoint(Stats1, Stats2)
    ensures Disjoint(Stats1, Stats3)
    ensures Disjoint(Stats2, Stats3)
  {
  }

  lemma LabelBlocksDistinct()
    ensures Distinct(Labels0) && Distinct(Labels1) && Distinct(Labels2) && Distinct(Labels3)
  {
  }

  lemma LabelBlocksDisjoint()
    ensures Disjoint(Labels0, Labels1)
    ensures Disjoint(Labels0, Labels2)
    ensures Disjoint(Labels0, Labels3)
    ensures Disjoint(Labels1, Labels2)
    ensures Disjoint(Labels1, Labels3)
    ensures Disjoint(Labels2, Labels3)
  {
  }

  lemma IdentifiersApart()
    ensures Disjoint(Ids, Stats0)
    ensures Disjoint(Ids, Stats1)
    ensures Disjoint(Ids, Stats2)
    ensures Disjoint(Ids, Stats3)
    ensures Disjoint(Ids, Labels0)
    ensures Disjoint(Ids, Labels1)
    ensures Disjoint(Ids, Labels2)
    ensures Disjoint(Ids, Labels3)
  {
  }

  /** The page's own allow-list and dictionary meet what the shared stage needs. */
  lemma ConfigHolds()
    ensures Allowlist.Config(Ids, StatColumns, StatLabels) && |StatLabels| == 31
  {
    ColumnBlocksDistinct();
    ColumnBlocksDisjoint();
    LabelBlocksDistinct();
    LabelBlocksDisjoint();
    IdentifiersApart();
    DistinctBlocks4(Stats0, Stats1, Stats2, Stats3);
    DistinctBlocks4(Labels0, Labels1, Labels2, Labels3);
    DisjointBlocks4(Ids, Stats0, Stats1, Stats2, Stats3);
    DisjointBlocks4(Ids, Labels0, Labels1, Labels2, Labels3);
  }

  /** The construction for statistic columns `stats` renamed to `labels`: the
      renamed table indexed by `Team`, without `Season`. */
  function BuildWith(raw: Table, stats: seq<string>, labels: seq<string>): Result<Table>
    requires Valid(raw) && Allowlist.Config(Ids, stats, labels)
  {
    match Allowlist.Prepare(raw, Ids, stats, labels)
    case Err(e) => Err(e)
    case Ok(renamed) =>
      match SetIndex(renamed, "Team")
      case Err(e) => Err(e)
      case Ok(indexed) => Drop(indexed, ["Season"])
  }

  /** The page's table, built at import time from the fetched table. */
  function Build(raw: Table): Result<Table>
    requires Valid(raw)
  {
    ConfigHolds();
    BuildWith(raw, StatColumns, StatLabels)
  }

  /** The construction run on a DataFrame object: select and copy, rename in
      place, set the index in place, drop `Season` in place. It fails exactly when
      `BuildWith` does, with the same error, and otherwise holds its table. */
  method LoadWith(raw: Table, stats: seq<string>, labels: seq<string>) returns (r: Result<DataFrame>)
    requires Valid(raw) && Allowlist.Config(Ids, stats, labels)
    ensures r.Ok? <==> BuildWith(raw, stats, labels).Ok?
    ensures r.Err? ==> r.error == BuildWith(raw, stats, labels).error
    ensures r.Ok? ==> fresh(r.value) && r.value.Value() == BuildWith(raw, stats, labels).value
  {
    Allowlist.ConfigFacts(Ids, stats, labels);
    var selected := Select(raw, Ids + stats);
    if selected.Err? {
      return Err(selected.error);
    }
    var frame := new DataFrame(selected.value);
    frame.Rename(Dict(stats, labels));
    assert frame.Value() == Allowlist.Prepare(raw, Ids, stats, labels).value;
    // Both identifiers were selected, so neither of the last two steps can raise.
    assert Ids[1] == "Team" && Ids[0] == "Season";
    var outcome := frame.SetIndex("Team");
    assert outcome.Done?;
    outcome := frame.Drop(["Season"]);
    assert outcome.Done?;
    return Ok(frame);
  }

  /** The page's import-time construction, with its own columns and labels. */
  method Load(raw: Table) returns (r: Result<DataFrame>)
    requires Valid(raw)
    ensures r.Ok? <==> Build(raw).Ok?
    ensures r.Err? ==> r.error == Build(raw).error
    ensures r.Ok? ==> fresh(r.value) && r.value.Value() == Build(raw).value
  {
    ConfigHolds();
    r := LoadWith(raw, StatColumns, StatLabels);
  }

  /** The fetched table holds the allow-list's columns: `Season`, `Team` and the
      statistic columns. */
  predicate Fetched(raw: Table) {
    Valid(raw) && Present(raw, Ids) && Present(raw, StatColumns)
  }

  /** Making `Team` the index leaves `Season` followed by the labels. */
  lemma IndexStep(renamed: Table, labels: seq<string>)
    requires Valid(renamed) && renamed.columns == Ids + labels && Disjoint(Ids, labels)
    ensures SetIndex(renamed, "Team").Ok?
    ensures SetIndex(renamed, "Team").value.columns == ["Season"] + labels
  {
    var drop := {"Team"};
    FilterAppend(Ids, labels, drop);
    assert Ids == ["Season"] + ["Team"];
    FilterAppend(["Season"], ["Team"], drop);
    assert Filter(["Team"], drop) == [];
    assert Filter(["Season"], drop) == ["Season"];
    assert "Team" !in labels by {
      assert Ids[1] == "Team";
    }
    FilterNothing(labels, drop);
  }

  /** With the allow-list present, the construction offers the labels as its
      columns, is indexed by the fetched `Team` column, and holds under each label
      the fetched cells of the column it renames. */
  lemma BuiltWith(raw: Table, stats: seq<string>, labels: seq<string>)
    requires Valid(raw) && Allowlist.Config(Ids, stats, labels) && Present(raw, Ids) && Present(raw, stats)
    ensures BuildWith(raw, stats, labels).Ok? && Valid(BuildWith(raw, stats, labels).value)
    ensures BuildWith(raw, stats, labels).value.columns == labels
    ensures "Team" in raw.columns &&
            BuildWith(raw, stats, labels).value.index == Keyed("Team", Column(raw, "Team"))
    ensures forall i, k :: 0 <= i < |raw.rows| && 0 <= k < |labels| ==>
              stats[k] in raw.rows[i] && labels[k] in BuildWith(raw, stats, labels).value.rows[i] &&
              BuildWith(raw, stats, labels).value.rows[i][labels[k]] == raw.rows[i][stats[k]]
  {
    Allowlist.PrepareStep(raw, Ids, stats, labels);
    var renamed := Allowlist.Prepare(raw, Ids, stats, labels).value;
    IndexStep(renamed, labels);
    var indexed := SetIndex(renamed, "Team").value;
    assert Ids[1] == "Team";
    assert Column(renamed, "Team") == Column(raw, "Team");
    DropLeading(indexed, ["Season"], labels);
    DropKeeps(indexed, ["Season"], raw, stats, labels);
  }

  /** Dropping `Season` keeps every labelled cell of the indexed table. */
  lemma DropKeeps(indexed: Table, names: seq<string>, raw: Table, stats: seq<string>, labels: seq<string>)
    requires Valid(indexed) && Drop(indexed, names).Ok? && Drop(indexed, names).value.columns == labels
    requires |stats| == |labels| && |indexed.rows| == |raw.rows|
    requires forall i, k :: 0 <= i < |raw.rows| && 0 <= k < |labels| ==>
               stats[k] in raw.rows[i] && labels[k] in indexed.rows[i] &&
               indexed.rows[i][labels[k]] == raw.rows[i][stats[k]]
    ensures forall i, k :: 0 <= i < |raw.rows| && 0 <= k < |labels| ==>
              labels[k] in Drop(indexed, names).value.rows[i] &&
              Drop(indexed, names).value.rows[i][labels[k]] == raw.rows[i][stats[k]]
  {
    var t := Drop(indexed, names).value;
    forall i, k | 0 <= i < |raw.rows| && 0 <= k < |labels|
      ensures labels[k] in t.rows[i] && t.rows[i][labels[k]] == raw.rows[i][stats[k]]
    {
      assert labels[k] in t.columns;
    }
  }

  /** The team table offers exactly the thirty-one labels as statistics, in
      dictionary order, and is indexed by the fetched `Team` column, in fetch
      order; under each label it holds the fetched cells of the column the label
      renames. */
  lemma Built(raw: Table)
    requires Fetched(raw)
    ensures Build(raw).Ok? && Valid(Build(raw).value)
    ensures StatList(Build(raw).value) == StatLabels && |StatLabels| == 31
    ensures "Team" in raw.columns && Build(raw).value.index == Keyed("Team", Column(raw, "Team"))
    ensures forall i, k :: 0 <= i < |raw.rows| && 0 <= k < |StatLabels| ==>
              StatColumns[k] in raw.rows[i] && StatLabels[k] in Build(raw).value.rows[i] &&
              Build(raw).value.rows[i][StatLabels[k]] == raw.rows[i][StatColumns[k]]
  {
    ConfigHolds();
    BuiltWith(raw, StatColumns, StatLabels);
  }

  /** The construction raises KeyError exactly when an allow-list column is missing. */
  lemma BuildFails(raw: Table)
    requires Valid(raw)
    ensures Build(raw).Err? <==> !(Present(raw, Ids) && Present(raw, StatColumns))
    ensures Build(raw).Err? ==> Build(raw).error == KeyError
  {
    ConfigHolds();
    Allowlist.PrepareStep(raw, Ids, StatColumns, StatLabels);
    if Fetched(raw) {
      Built(raw);
    }
  }

  /** The statistic used when none is chosen, and the statistic dropdown's initial value. */
  const DefaultStat: string := "Home Runs (HR)"
  const InitialStat: string := "Home Runs (HR)"

  /** The team shown when none is chosen, and the team dropdown's initial value. */
  const DefaultTeam: Cell := Text("HOU")
  const InitialTeams: seq<Cell> := [Text("HOU")]

  /** The callback's data frame for the chosen statistic and teams. */
  function Charts(t: Table, stat: string, teams: seq<Cell>): Result<Table>
    requires Valid(t) && t.index.Keyed?
  {
    Subset(t, stat, teams, DefaultStat, DefaultTeam)
  }

  /** Clearing both dropdowns gives the chart the page opens with. */
  lemma ClearedIsInitial(t: Table)
    requires Valid(t) && t.index.Keyed?
    ensures Charts(t, "", []) == Charts(t, InitialStat, InitialTeams)
  {
  }

  /** The default statistic is one of the statistics the table offers. */
  lemma DefaultStatOffered(raw: Table)
    requires Fetched(raw)
    ensures Build(raw).Ok? && DefaultStat in StatList(Build(raw).value)
  {
    Built(raw);
    assert Labels0[6] == DefaultStat;
  }

  /** When no team appears twice in the fetched table, a choice of known teams and of
      an offered statistic gives one bar per chosen team, in the order chosen,
      with that team's fetched value of the statistic. */
  lemma ChartsOnePerTeam(raw: Table, t: Table, stat: string, teams: seq<Cell>)
    requires Fetched(raw) && Build(raw) == Ok(t)
    requires "Team" in raw.columns && Distinct(Column(raw, "Team"))
    requires forall k :: k in Entities(teams, DefaultTeam) ==> k in Column(raw, "Team")
    requires Stat(stat, DefaultStat) in StatLabels
    ensures Valid(t) && t.index.Keyed?
    ensures var s, sel := Stat(stat, DefaultStat), Entities(teams, DefaultTeam);
            var r := Charts(t, stat, teams);
            && r.Ok? && r.value.columns == ["Team", s] && |r.value.rows| == |sel|
            && forall j :: 0 <= j < |sel| ==>
                 var p, c := IndexOf(Column(raw, "Team"), sel[j]), IndexOf(StatLabels, s);
                 c < |StatColumns| && StatColumns[c] in raw.rows[p] &&
                 r.value.rows[j] == map["Team" := sel[j], s := raw.rows[p][StatColumns[c]]]
  {
    ConfigHolds();
    Built(raw);
    var s := Stat(stat, DefaultStat);
    assert s != "Team" by {
      assert Ids[1] == "Team";
    }
    SubsetOnePerEntity(t, stat, teams, DefaultStat, DefaultTeam);
  }
}
