/**
 * The callback behind both bar-chart pages. An empty dropdown value is replaced
 * by the page's fixed default; a value that is not empty is passed on as it is,
 * with no check against the table. The chart is drawn from
 * `table.loc[entities, stat].copy().reset_index()`, which is what `Subset`
 * computes; the figure and its styling are not modelled.
 */
module BarChart {
  import opened Seqs
  import opened Frame

  /** The statistic the chart uses: the chosen one, or `default` when nothing is chosen. */
  function Stat(choice: string, default: string): (s: string)
    ensures |choice| == 0 ==> s == default
    ensures |choice| > 0 ==> s == choice
  {
    if |choice| == 0 then default else choice
  }

  /** The entities the chart shows: the chosen ones in the chosen order, or the
      single `default` when nothing is chosen. */
  function Entities(choice: seq<Cell>, default: Cell): (sel: seq<Cell>)
    ensures |choice| == 0 ==> sel == [default]
    ensures |choice| > 0 ==> sel == choice
  {
    if |choice| == 0 then [default] else choice
  }

  /** The data frame the bar chart is drawn from. */
  function Subset(t: Table, stat: string, entities: seq<Cell>, defaultStat: string, defaultEntity: Cell): Result<Table>
    requires Valid(t) && t.index.Keyed?
  {
    Locate(t, Entities(entities, defaultEntity), Stat(stat, defaultStat))
  }

  /** With nothing chosen in either dropdown, the chart shows the default entity's
      default statistic. */
  lemma SubsetOfNothing(t: Table, defaultStat: string, defaultEntity: Cell)
    requires Valid(t) && t.index.Keyed?
    ensures Subset(t, "", [], defaultStat, defaultEntity) == Locate(t, [defaultEntity], defaultStat)
  {
  }

  /** When every shown entity labels exactly one row and the statistic is a value
      column, the chart has one bar per shown entity in the order chosen, each
      holding the entity's key and that entity's value of the statistic. */
  lemma SubsetOnePerEntity(t: Table, stat: string, entities: seq<Cell>, defaultStat: string, defaultEntity: Cell)
    requires Valid(t) && t.index.Keyed? && Distinct(t.index.keys)
    requires forall k :: k in Entities(entities, defaultEntity) ==> k in t.index.keys
    requires Stat(stat, defaultStat) in t.columns && Stat(stat, defaultStat) != t.index.name
    ensures var sel, s := Entities(entities, defaultEntity), Stat(stat, defaultStat);
            var r := Subset(t, stat, entities, defaultStat, defaultEntity);
            && r.Ok?
            && r.value.columns == [t.index.name, s]
            && |r.value.rows| == |sel|
            && forall j :: 0 <= j < |sel| ==>
                 r.value.rows[j] == map[t.index.name := sel[j], s := t.rows[IndexOf(t.index.keys, sel[j])][s]]
  {
    LocateOnePerLabel(t, Entities(entities, defaultEntity), Stat(stat, defaultStat));
  }

  /** The choices are not filtered against the table: one entity the index does not
      hold, or a statistic that is not a column, makes the callback raise KeyError. */
  lemma SubsetRejects(t: Table, stat: string, entities: seq<Cell>, defaultStat: string, defaultEntity: Cell)
    requires Valid(t) && t.index.Keyed?
    requires (exists k :: k in entities && k !in t.index.keys) || Stat(stat, defaultStat) !in t.columns
    ensures Subset(t, stat, entities, defaultStat, defaultEntity) == Err(KeyError)
  {
  }
}
