/**
 * The part of a pandas DataFrame that the three pages use: an ordered list of
 * column names, a row index, and rows whose cells are looked up by column name.
 * Each operation is the value-level meaning of one pandas call.
 */
module Frame {
  import opened Seqs

  /** A cell. Names and team abbreviations are text; every statistic is a number
      whose value the model does not interpret, so it is only an opaque token. */
  datatype Cell = Text(text: string) | Number(token: int)

  /** The exceptions pandas and plotly raise on the paths the pages take. */
  datatype Error =
    | KeyError    // a row or column label that is not in the table
    | TypeError   // string concatenation applied to a cell that is not text
    | ValueError  // a column name clash in reset_index, or a plot axis that is not a column

  datatype Result<T> = Ok(value: T) | Err(error: Error)

  /** What a state-changing step reports: it finished, or it raised. */
  datatype Outcome = Done | Raised(error: Error)

  /** The row index: the default positional one, or a named column's values. */
  datatype Index = Positional | Keyed(name: string, keys: seq<Cell>)

  type Row = map<string, Cell>

  datatype Table = Table(columns: seq<string>, index: Index, rows: seq<Row>)

  /** A row holds a cell for exactly the table's columns. */
  predicate RowFits(row: Row, columns: seq<string>) {
    row.Keys == set c | c in columns
  }

  /** Column names are unique, every row fits them, and a keyed index labels every row. */
  predicate Valid(t: Table) {
    && Distinct(t.columns)
    && (forall i :: 0 <= i < |t.rows| ==> RowFits(t.rows[i], t.columns))
    && (t.index.Keyed? ==> |t.index.keys| == |t.rows|)
  }

  /** `t[c]`: the cells of one column in row order. */
  function Column(t: Table, c: string): (col: seq<Cell>)
    requires Valid(t) && c in t.columns
    ensures |col| == |t.rows|
    ensures forall i :: 0 <= i < |t.rows| ==> col[i] == t.rows[i][c]
  {
    seq(|t.rows|, i requires 0 <= i < |t.rows| => t.rows[i][c])
  }

  /** `[x for x in t.columns]`: the options of a page's statistic dropdowns. */
  function StatList(t: Table): seq<string> {
    t.columns
  }

  /** `[x for x in t.index]`: the options of a page's entity dropdown. */
  function EntityList(t: Table): seq<Cell>
    requires t.index.Keyed?
  {
    t.index.keys
  }

  /** Every name is a column of `t`. */
  predicate Present(t: Table, names: seq<string>) {
    forall c :: c in names ==> c in t.columns
  }

  lemma PresentAppend(t: Table, a: seq<string>, b: seq<string>)
    ensures Present(t, a + b) <==> Present(t, a) && Present(t, b)
  {
  }

  function Restrict(row: Row, names: seq<string>): Row
    requires forall c :: c in names ==> c in row
  {
    map c | c in names :: row[c]
  }

  /** `t[names].copy()`: the listed columns, in the listed order, with every row's
      cells unchanged. A name that is not a column raises KeyError. */
  function Select(t: Table, names: seq<string>): (r: Result<Table>)
    requires Valid(t)
    ensures r.Ok? <==> Present(t, names)
    ensures r.Err? ==> r.error == KeyError
    ensures r.Ok? ==> r.value.columns == names && r.value.index == t.index
    ensures r.Ok? ==> |r.value.rows| == |t.rows|
    ensures r.Ok? ==> forall i, c :: 0 <= i < |t.rows| && c in names ==>
                        c in r.value.rows[i] && r.value.rows[i][c] == t.rows[i][c]
    ensures r.Ok? && Distinct(names) ==> Valid(r.value)
  {
    if forall c :: c in names ==> c in t.columns then
      Ok(Table(names, t.index, seq(|t.rows|, i requires 0 <= i < |t.rows| => Restrict(t.rows[i], names))))
    else
      Err(KeyError)
  }

  /** The label a column gets from `rename(columns=m)`: its entry in `m`, or itself. */
  function Renamed(m: map<string, string>, c: string): string {
    if c in m then m[c] else c
  }

  function RenameAll(cs: seq<string>, m: map<string, string>): (r: seq<string>)
    ensures |r| == |cs|
    ensures forall j :: 0 <= j < |cs| ==> r[j] == Renamed(m, cs[j])
  {
    seq(|cs|, j requires 0 <= j < |cs| => Renamed(m, cs[j]))
  }

  function RenameRow(row: Row, cs: seq<string>, m: map<string, string>): (r: Row)
    requires RowFits(row, cs) && Distinct(RenameAll(cs, m))
    ensures RowFits(r, RenameAll(cs, m))
    ensures forall j :: 0 <= j < |cs| ==> Renamed(m, cs[j]) in r && r[Renamed(m, cs[j])] == row[cs[j]]
  {
    var labels := RenameAll(cs, m);
    var r := map c | c in labels :: row[cs[IndexOf(labels, c)]];
    assert forall j :: 0 <= j < |cs| ==> IndexOf(labels, labels[j]) == j by {
      forall j | 0 <= j < |cs| ensures IndexOf(labels, labels[j]) == j {
        IndexOfDistinct(labels, j);
      }
    }
    r
  }

  /** `rename(columns=m)`: every column named in `m` takes its new label, the
      others keep theirs, order and cells stay. The model's tables cannot hold two
      columns of one name, so the new labels must stay distinct. */
  function Rename(t: Table, m: map<string, string>): (r: Table)
    requires Valid(t) && Distinct(RenameAll(t.columns, m))
    ensures r.columns == RenameAll(t.columns, m)
    ensures r.index == t.index && |r.rows| == |t.rows|
    ensures forall i, j :: 0 <= i < |t.rows| && 0 <= j < |t.columns| ==>
              Renamed(m, t.columns[j]) in r.rows[i] && r.rows[i][Renamed(m, t.columns[j])] == t.rows[i][t.columns[j]]
    ensures Valid(r)
  {
    Table(RenameAll(t.columns, m), t.index,
          seq(|t.rows|, i requires 0 <= i < |t.rows| => RenameRow(t.rows[i], t.columns, m)))
  }

  /** `t[name] = vals`: an existing column is overwritten in place, a new one is
      appended last; every other cell stays. */
  function Assign(t: Table, name: string, vals: seq<Cell>): (r: Table)
    requires Valid(t) && |vals| == |t.rows|
    ensures r.columns == if name in t.columns then t.columns else t.columns + [name]
    ensures r.index == t.index && |r.rows| == |t.rows|
    ensures forall i :: 0 <= i < |t.rows| ==> name in r.rows[i] && r.rows[i][name] == vals[i]
    ensures forall i, c :: 0 <= i < |t.rows| && c in t.columns && c != name ==>
              c in r.rows[i] && r.rows[i][c] == t.rows[i][c]
    ensures Valid(r)
  {
    var cols := if name in t.columns then t.columns else t.columns + [name];
    assert name !in t.columns ==> Distinct(cols) by {
      if name !in t.columns {
        DistinctAppend(t.columns, [name]);
      }
    }
    Table(cols, t.index, seq(|t.rows|, i requires 0 <= i < |t.rows| => t.rows[i][name := vals[i]]))
  }

  /** `set_index(name)`: the column's cells, in row order, become the index and the
      column leaves the value columns. A name that is not a column raises KeyError. */
  function SetIndex(t: Table, name: string): (r: Result<Table>)
    requires Valid(t)
    ensures r.Ok? <==> name in t.columns
    ensures r.Err? ==> r.error == KeyError
    ensures r.Ok? ==> r.value.index == Keyed(name, Column(t, name))
    ensures r.Ok? ==> r.value.columns == Filter(t.columns, {name}) && |r.value.rows| == |t.rows|
    ensures r.Ok? ==> forall i, c :: 0 <= i < |t.rows| && c in r.value.columns ==>
                        c in r.value.rows[i] && r.value.rows[i][c] == t.rows[i][c]
    ensures r.Ok? ==> Valid(r.value)
  {
    if name in t.columns then
      Ok(Table(Filter(t.columns, {name}), Keyed(name, Column(t, name)),
               seq(|t.rows|, i requires 0 <= i < |t.rows| => t.rows[i] - {name})))
    else
      Err(KeyError)
  }

  /** `drop(columns=names)`: the listed columns leave, the rest keep their order,
      index and cells. If any listed name is not a column nothing is dropped and
      KeyError is raised. */
  function Drop(t: Table, names: seq<string>): (r: Result<Table>)
    requires Valid(t)
    ensures r.Ok? <==> forall c :: c in names ==> c in t.columns
    ensures r.Err? ==> r.error == KeyError
    ensures r.Ok? ==> r.value.columns == Filter(t.columns, set c | c in names)
    ensures r.Ok? ==> r.value.index == t.index && |r.value.rows| == |t.rows|
    ensures r.Ok? ==> forall i, c :: 0 <= i < |t.rows| && c in r.value.columns ==>
                        c in r.value.rows[i] && r.value.rows[i][c] == t.rows[i][c]
    ensures r.Ok? ==> Valid(r.value)
  {
    if forall c :: c in names ==> c in t.columns then
      Ok(Table(Filter(t.columns, set c | c in names), t.index,
               seq(|t.rows|, i requires 0 <= i < |t.rows| => t.rows[i] - (set c | c in names))))
    else
      Err(KeyError)
  }

  /** Assigning a new column and then making it the index is the same as attaching
      the values as the index: the value columns and cells stay as they were. */
  lemma AssignSetIndex(t: Table, name: string, vals: seq<Cell>)
    requires Valid(t) && |vals| == |t.rows| && name !in t.columns
    ensures SetIndex(Assign(t, name, vals), name) == Ok(Table(t.columns, Keyed(name, vals), t.rows))
  {
    AssignSetIndexRows(t, name, vals);
    AssignSetIndexColumns(t, name, vals);
  }

  lemma AssignSetIndexRows(t: Table, name: string, vals: seq<Cell>)
    requires Valid(t) && |vals| == |t.rows| && name !in t.columns
    ensures SetIndex(Assign(t, name, vals), name).Ok?
    ensures SetIndex(Assign(t, name, vals), name).value.rows == t.rows
  {
    var a := Assign(t, name, vals);
    var r := SetIndex(a, name).value;
    forall i | 0 <= i < |t.rows| ensures r.rows[i] == t.rows[i] {
      assert name !in t.rows[i];
      UpdateThenRemove(t.rows[i], name, vals[i]);
    }
  }

  /** Adding a cell under a new name and removing it again gives back the row. */
  lemma UpdateThenRemove(row: Row, name: string, v: Cell)
    requires name !in row
    ensures row[name := v] - {name} == row
  {
  }

  lemma AssignSetIndexColumns(t: Table, name: string, vals: seq<Cell>)
    requires Valid(t) && |vals| == |t.rows| && name !in t.columns
    ensures SetIndex(Assign(t, name, vals), name).Ok?
    ensures SetIndex(Assign(t, name, vals), name).value.columns == t.columns
    ensures SetIndex(Assign(t, name, vals), name).value.index == Keyed(name, vals)
  {
    var a := Assign(t, name, vals);
    FilterAppend(t.columns, [name], {name});
    FilterNothing(t.columns, {name});
    assert Filter([name], {name}) == [];
    assert Column(a, name) == vals;
    assert a.columns == t.columns + [name];
    assert t.columns + [] == t.columns;
  }

  /** Dropping the leading columns `ids` leaves the rest, in order. */
  lemma DropLeading(t: Table, ids: seq<string>, rest: seq<string>)
    requires Valid(t) && t.columns == ids + rest
    ensures Drop(t, ids).Ok? && Drop(t, ids).value.columns == rest
  {
    var drop := set c | c in ids;
    FilterAppend(ids, rest, drop);
    FilterAll(ids, drop);
    DistinctAppend(ids, rest);
    FilterNothing(rest, drop);
  }

  /** The positions from `lo` on, in increasing order, whose index label is `k`. */
  function MatchesFrom(keys: seq<Cell>, k: Cell, lo: nat): (ps: seq<nat>)
    ensures forall j :: 0 <= j < |ps| ==> lo <= ps[j] < |keys| && keys[ps[j]] == k
    decreases |keys| - lo
  {
    if lo >= |keys| then []
    else (if keys[lo] == k then [lo] else []) + MatchesFrom(keys, k, lo + 1)
  }

  /** The positions, in increasing order, whose index label is `k`. */
  function Matches(keys: seq<Cell>, k: Cell): (ps: seq<nat>)
    ensures forall j :: 0 <= j < |ps| ==> ps[j] < |keys| && keys[ps[j]] == k
    ensures forall a, b :: 0 <= a < b < |ps| ==> ps[a] < ps[b]
    ensures k !in keys ==> ps == []
  {
    var ps := MatchesFrom(keys, k, 0);
    MatchesFromIncreasing(keys, k, 0);
    assert |ps| > 0 ==> keys[ps[0]] in keys;
    ps
  }

  /** Each matching position occurs once, and they come in index order. */
  lemma {:induction false} MatchesFromIncreasing(keys: seq<Cell>, k: Cell, lo: nat)
    ensures forall a, b :: 0 <= a < b < |MatchesFrom(keys, k, lo)| ==>
              MatchesFrom(keys, k, lo)[a] < MatchesFrom(keys, k, lo)[b]
    decreases |keys| - lo
  {
    if lo < |keys| {
      var head: seq<nat> := if keys[lo] == k then [lo] else [];
      var rest := MatchesFrom(keys, k, lo + 1);
      var ps := MatchesFrom(keys, k, lo);
      assert ps == head + rest;
      MatchesFromIncreasing(keys, k, lo + 1);
      forall a, b | 0 <= a < b < |ps| ensures ps[a] < ps[b] {
        if a < |head| {
          assert ps[a] == lo && ps[b] == rest[b - |head|];
        } else {
          assert ps[a] == rest[a - |head|] && ps[b] == rest[b - |head|];
        }
      }
    }
  }

  lemma {:induction false} MatchesFromComplete(keys: seq<Cell>, k: Cell, lo: nat, p: nat)
    requires lo <= p < |keys| && keys[p] == k
    ensures p in MatchesFrom(keys, k, lo)
    decreases |keys| - lo
  {
    var head: seq<nat> := if keys[lo] == k then [lo] else [];
    var ps := MatchesFrom(keys, k, lo);
    assert ps == head + MatchesFrom(keys, k, lo + 1);
    if p == lo {
      assert ps[0] == p;
    } else {
      MatchesFromComplete(keys, k, lo + 1, p);
      assert p in MatchesFrom(keys, k, lo + 1);
    }
  }

  /** Every position whose label is `k` is among the matches. */
  lemma MatchesComplete(keys: seq<Cell>, k: Cell, p: nat)
    requires p < |keys| && keys[p] == k
    ensures p in Matches(keys, k)
  {
    MatchesFromComplete(keys, k, 0, p);
  }

  /** `t.loc[sel]` on the rows: for each selected label in turn, every row it labels. */
  function Gather(keys: seq<Cell>, sel: seq<Cell>): (ps: seq<nat>)
    ensures forall j :: 0 <= j < |ps| ==> ps[j] < |keys|
  {
    if |sel| == 0 then [] else Matches(keys, sel[0]) + Gather(keys, sel[1..])
  }

  /** `t.loc[sel, stat].copy().reset_index()`: the rows the selected labels pick,
      in selection order, each reduced to the index label (now a column again,
      placed first) and the one selected statistic. A label or a statistic that
      is not in the table raises KeyError; a statistic named like the index makes
      reset_index raise ValueError. */
  function Locate(t: Table, sel: seq<Cell>, stat: string): (r: Result<Table>)
    requires Valid(t) && t.index.Keyed?
    ensures r.Ok? <==> (forall k :: k in sel ==> k in t.index.keys) && stat in t.columns && stat != t.index.name
    ensures r.Err? && stat in t.columns && (forall k :: k in sel ==> k in t.index.keys) ==> r.error == ValueError
    ensures r.Err? && !(stat in t.columns && (forall k :: k in sel ==> k in t.index.keys)) ==> r.error == KeyError
    ensures r.Ok? ==> r.value.columns == [t.index.name, stat] && r.value.index == Positional && Valid(r.value)
    ensures r.Ok? ==> |r.value.rows| == |Gather(t.index.keys, sel)|
    ensures r.Ok? ==> forall j :: 0 <= j < |r.value.rows| ==>
              var p := Gather(t.index.keys, sel)[j];
              r.value.rows[j] == map[t.index.name := t.index.keys[p], stat := t.rows[p][stat]]
  {
    var keys := t.index.keys;
    if !(forall k :: k in sel ==> k in keys) || stat !in t.columns then
      Err(KeyError)
    else if stat == t.index.name then
      Err(ValueError)
    else
      var ps := Gather(keys, sel);
      var out := Table([t.index.name, stat], Positional,
                       seq(|ps|, j requires 0 <= j < |ps| => map[t.index.name := keys[ps[j]], stat := t.rows[ps[j]][stat]]));
      assert Valid(out);
      Ok(out)
  }

  lemma {:induction false} MatchesFromDistinct(keys: seq<Cell>, k: Cell, lo: nat)
    requires Distinct(keys) && k in keys
    ensures MatchesFrom(keys, k, lo) == if lo <= IndexOf(keys, k) then [IndexOf(keys, k)] else []
    decreases |keys| - lo
  {
    if lo < |keys| {
      var head: seq<nat> := if keys[lo] == k then [lo] else [];
      assert MatchesFrom(keys, k, lo) == head + MatchesFrom(keys, k, lo + 1);
      MatchesFromDistinct(keys, k, lo + 1);
      if keys[lo] == k {
        IndexOfDistinct(keys, lo);
      }
    }
  }

  /** With a repetition-free index, a present label matches exactly its own row. */
  lemma MatchesDistinct(keys: seq<Cell>, k: Cell)
    requires Distinct(keys) && k in keys
    ensures Matches(keys, k) == [IndexOf(keys, k)]
  {
    MatchesFromDistinct(keys, k, 0);
  }

  /** With a repetition-free index and every label present, the selection picks one
      row per label, in selection order. */
  lemma {:induction false} GatherDistinct(keys: seq<Cell>, sel: seq<Cell>)
    requires Distinct(keys) && forall k :: k in sel ==> k in keys
    ensures |Gather(keys, sel)| == |sel|
    ensures forall j :: 0 <= j < |sel| ==> Gather(keys, sel)[j] == IndexOf(keys, sel[j])
  {
    if |sel| > 0 {
      MatchesDistinct(keys, sel[0]);
      assert forall k :: k in sel[1..] ==> k in sel;
      GatherDistinct(keys, sel[1..]);
      var g := Gather(keys, sel);
      assert g == [IndexOf(keys, sel[0])] + Gather(keys, sel[1..]);
      forall j | 0 <= j < |sel| ensures g[j] == IndexOf(keys, sel[j]) {
        if j > 0 {
          assert g[j] == Gather(keys, sel[1..])[j - 1];
          assert sel[1..][j - 1] == sel[j];
        }
      }
    }
  }

  /** The bar-chart subset when every selected label names exactly one row: one row
      per selected label, in selection order, holding that label and its row's
      value of the statistic. */
  lemma LocateOnePerLabel(t: Table, sel: seq<Cell>, stat: string)
    requires Valid(t) && t.index.Keyed? && Distinct(t.index.keys)
    requires forall k :: k in sel ==> k in t.index.keys
    requires stat in t.columns && stat != t.index.name
    ensures Locate(t, sel, stat).Ok?
    ensures |Locate(t, sel, stat).value.rows| == |sel|
    ensures forall j :: 0 <= j < |sel| ==>
              var p := IndexOf(t.index.keys, sel[j]);
              Locate(t, sel, stat).value.rows[j] == map[t.index.name := sel[j], stat := t.rows[p][stat]]
  {
    GatherDistinct(t.index.keys, sel);
  }
}
