/**
 * The construction the player-batting and pitching pages share. Each selects its
 * allow-list (`Season`, `Name`, `Team`, then its statistics), renames the
 * statistics through its dictionary, adds a `Name (Team)` column made of each
 * row's name, a space, the team in parentheses, makes that column the index and
 * drops the three identifier columns. The pages differ only in their statistic
 * columns and labels.
 */
module PlayerTables {
  import opened Seqs
  import opened Frame
  import opened Renames
  import Allowlist
  import opened DataFrames

  datatype Option<T> = None | Some(value: T)

  /** The identifier columns at the head of both allow-lists. */
  const Ids: seq<string> := ["Season", "Name", "Team"]

  /** The derived key column, which becomes the index. */
  const KeyColumn: string := "Name (Team)"

  /** What a page's statistic columns and labels must satisfy for the steps to
      apply: what the shared first stage needs for these identifiers (see
      `ConfigFacts`), and no label is the key column. */
  predicate Config(stats: seq<string>, labels: seq<string>) {
    && |stats| == |labels|
    && Distinct(stats) && Distinct(labels)
    && Disjoint(Ids, stats) && Disjoint(Ids, labels)
    && KeyColumn !in labels
  }

  lemma ConfigFacts(stats: seq<string>, labels: seq<string>)
    requires Config(stats, labels)
    ensures Distinct(Ids + stats) && Distinct(Ids + labels)
    ensures RenameAll(Ids + stats, Dict(stats, labels)) == Ids + labels
    ensures KeyColumn !in Ids + labels
  {
    assert Allowlist.Config(Ids, stats, labels);
    Allowlist.ConfigFacts(Ids, stats, labels);
  }

  /** The key text of one row. */
  function KeyText(name: string, team: string): string {
    name + " (" + team + ")"
  }

  /** Every row has a name and a team and both are text, so the concatenation applies. */
  predicate TextIdentifiers(t: Table) {
    forall i :: 0 <= i < |t.rows| ==>
      && "Name" in t.rows[i] && t.rows[i]["Name"].Text?
      && "Team" in t.rows[i] && t.rows[i]["Team"].Text?
  }

  /** The key of every row, in row order. */
  function Keys(t: Table): (keys: seq<Cell>)
    requires TextIdentifiers(t)
    ensures |keys| == |t.rows|
    ensures forall i :: 0 <= i < |t.rows| ==>
              keys[i] == Text(KeyText(t.rows[i]["Name"].text, t.rows[i]["Team"].text))
  {
    seq(|t.rows|, i requires 0 <= i < |t.rows| => Text(KeyText(t.rows[i]["Name"].text, t.rows[i]["Team"].text)))
  }

  /** `t['Name'] + ' (' + t['Team'] + ')'`: the keys, or TypeError when some name
      or team is not text. */
  function DeriveKeys(t: Table): (r: Result<seq<Cell>>)
    requires Valid(t) && "Name" in t.columns && "Team" in t.columns
    ensures r.Ok? <==> TextIdentifiers(t)
    ensures r.Ok? ==> r.value == Keys(t)
    ensures r.Err? ==> r.error == TypeError
  {
    if TextIdentifiers(t) then Ok(Keys(t)) else Err(TypeError)
  }

  /** The statistics table of a page, built from the fetched table `raw`. */
  function Build(raw: Table, stats: seq<string>, labels: seq<string>): Result<Table>
    requires Valid(raw) && Config(stats, labels)
  {
    match Index(raw, stats, labels)
    case Err(e) => Err(e)
    case Ok(indexed) => Drop(indexed, Ids)
  }

  /** The renamed table with the key column added and made the index. */
  function Index(raw: Table, stats: seq<string>, labels: seq<string>): (r: Result<Table>)
    requires Valid(raw) && Config(stats, labels)
    ensures r.Ok? ==> Valid(r.value)
  {
    ConfigFacts(stats, labels);
    match Allowlist.Prepare(raw, Ids, stats, labels)
    case Err(e) => Err(e)
    case Ok(renamed) =>
      match DeriveKeys(renamed)
      case Err(e) => Err(e)
      case Ok(keys) => SetIndex(Assign(renamed, KeyColumn, keys), KeyColumn)
  }

  /** `t` is what the construction yields from `raw`: the labels are its columns in
      dictionary order, it is indexed by `Name (Team)` holding each raw row's key
      in row order, and each labelled cell is the raw row's cell of the column the
      label renames. */
  predicate BuiltFrom(t: Table, raw: Table, stats: seq<string>, labels: seq<string>)
    requires Valid(raw) && |stats| == |labels| && Present(raw, stats) && TextIdentifiers(raw)
  {
    && t.columns == labels
    && t.index == Keyed(KeyColumn, Keys(raw))
    && |t.rows| == |raw.rows|
    && forall i, k :: 0 <= i < |raw.rows| && 0 <= k < |labels| ==>
         stats[k] in raw.rows[i] && labels[k] in t.rows[i] && t.rows[i][labels[k]] == raw.rows[i][stats[k]]
  }

  /** Names and teams are carried through the select and the rename, so the
      renamed table has the same keys as the raw one. */
  lemma SameKeys(a: Table, b: Table)
    requires |a.rows| == |b.rows|
    requires forall i :: 0 <= i < |a.rows| ==> "Name" in a.rows[i] && "Team" in a.rows[i]
    requires forall i :: 0 <= i < |a.rows| ==> "Name" in b.rows[i] && "Team" in b.rows[i]
    requires forall i :: 0 <= i < |a.rows| ==>
               a.rows[i]["Name"] == b.rows[i]["Name"] && a.rows[i]["Team"] == b.rows[i]["Team"]
    ensures TextIdentifiers(a) <==> TextIdentifiers(b)
    ensures TextIdentifiers(a) ==> Keys(a) == Keys(b)
  {
  }

  /** Dropping the identifiers from the indexed table leaves the labels, with the
      index and the labelled cells as they were. */
  lemma DropStage(indexed: Table, raw: Table, stats: seq<string>, labels: seq<string>)
    requires Valid(indexed) && indexed.columns == Ids + labels
    requires |stats| == |labels| && |indexed.rows| == |raw.rows|
    requires forall i, k :: 0 <= i < |raw.rows| && 0 <= k < |labels| ==>
               stats[k] in raw.rows[i] && indexed.rows[i][labels[k]] == raw.rows[i][stats[k]]
    ensures Drop(indexed, Ids).Ok?
    ensures var t := Drop(indexed, Ids).value;
            && Valid(t) && t.columns == labels && t.index == indexed.index && |t.rows| == |raw.rows|
            && forall i, k :: 0 <= i < |raw.rows| && 0 <= k < |labels| ==>
                 stats[k] in raw.rows[i] && labels[k] in t.rows[i] && t.rows[i][labels[k]] == raw.rows[i][stats[k]]
  {
    DropLeading(indexed, Ids, labels);
    var t := Drop(indexed, Ids).value;
    forall i, k | 0 <= i < |raw.rows| && 0 <= k < |labels|
      ensures labels[k] in t.rows[i] && t.rows[i][labels[k]] == raw.rows[i][stats[k]]
    {
      assert labels[k] in t.columns;
    }
  }

  /** With the allow-list present and text identifiers, adding the key column and
      making it the index amounts to indexing the renamed table by the raw keys. */
  lemma KeyStage(raw: Table, stats: seq<string>, labels: seq<string>)
    requires Valid(raw) && Config(stats, labels)
    requires Present(raw, Ids) && Present(raw, stats) && TextIdentifiers(raw)
    ensures Allowlist.Prepare(raw, Ids, stats, labels).Ok?
    ensures Index(raw, stats, labels) ==
              Ok(Table(Ids + labels, Keyed(KeyColumn, Keys(raw)), Allowlist.Prepare(raw, Ids, stats, labels).value.rows))
  {
    ConfigFacts(stats, labels);
    Allowlist.PrepareStep(raw, Ids, stats, labels);
    var renamed := Allowlist.Prepare(raw, Ids, stats, labels).value;
    assert Ids[1] == "Name" && Ids[2] == "Team";
    assert "Name" in renamed.columns && "Team" in renamed.columns;
    SameKeys(renamed, raw);
    AssignSetIndex(renamed, KeyColumn, Keys(renamed));
  }

  /** On a table whose allow-list columns are present and whose names and teams
      are text, the construction yields the table `BuiltFrom` describes. */
  lemma Built(raw: Table, stats: seq<string>, labels: seq<string>)
    requires Valid(raw) && Config(stats, labels)
    requires Present(raw, Ids) && Present(raw, stats) && TextIdentifiers(raw)
    ensures Build(raw, stats, labels).Ok?
    ensures BuiltFrom(Build(raw, stats, labels).value, raw, stats, labels)
  {
    IndexStage(raw, stats, labels);
    DropStage(Index(raw, stats, labels).value, raw, stats, labels);
  }

  /** The indexed table, in the terms `DropStage` takes. */
  lemma IndexStage(raw: Table, stats: seq<string>, labels: seq<string>)
    requires Valid(raw) && Config(stats, labels)
    requires Present(raw, Ids) && Present(raw, stats) && TextIdentifiers(raw)
    ensures Index(raw, stats, labels).Ok?
    ensures var indexed := Index(raw, stats, labels).value;
            && Valid(indexed) && indexed.columns == Ids + labels
            && indexed.index == Keyed(KeyColumn, Keys(raw)) && |indexed.rows| == |raw.rows|
            && forall i, k :: 0 <= i < |raw.rows| && 0 <= k < |labels| ==>
                 stats[k] in raw.rows[i] && indexed.rows[i][labels[k]] == raw.rows[i][stats[k]]
  {
    KeyStage(raw, stats, labels);
    IndexCells(raw, stats, labels);
  }

  /** Under each label the indexed table holds the fetched cells of the column the
      label renames. */
  lemma IndexCells(raw: Table, stats: seq<string>, labels: seq<string>)
    requires Valid(raw) && Config(stats, labels)
    requires Present(raw, Ids) && Present(raw, stats) && TextIdentifiers(raw)
    ensures Index(raw, stats, labels).Ok?
    ensures forall i, k :: 0 <= i < |raw.rows| && 0 <= k < |labels| ==>
              stats[k] in raw.rows[i] && labels[k] in Index(raw, stats, labels).value.rows[i] &&
              Index(raw, stats, labels).value.rows[i][labels[k]] == raw.rows[i][stats[k]]
  {
    ConfigFacts(stats, labels);
    Allowlist.PrepareStep(raw, Ids, stats, labels);
    KeyStage(raw, stats, labels);
    var renamed := Allowlist.Prepare(raw, Ids, stats, labels).value;
    var indexed := Index(raw, stats, labels).value;
    assert indexed.rows == renamed.rows;
    forall i, k | 0 <= i < |raw.rows| && 0 <= k < |labels|
      ensures stats[k] in raw.rows[i] && labels[k] in indexed.rows[i]
      ensures indexed.rows[i][labels[k]] == raw.rows[i][stats[k]]
    {
      assert labels[k] in renamed.rows[i] && renamed.rows[i][labels[k]] == raw.rows[i][stats[k]];
    }
  }

  /** The built table is a well-formed table. */
  lemma BuiltValid(raw: Table, stats: seq<string>, labels: seq<string>)
    requires Valid(raw) && Config(stats, labels)
    requires Present(raw, Ids) && Present(raw, stats) && TextIdentifiers(raw)
    ensures Build(raw, stats, labels).Ok? && Valid(Build(raw, stats, labels).value)
  {
    KeyStage(raw, stats, labels);
  }

  /** With unique keys, the rows the chart's selection picks from the built
      table: one per selected key, in selection order, each holding the key and
      that row's fetched cell of the column the statistic renames. */
  lemma LocateOnePerKey(raw: Table, stats: seq<string>, labels: seq<string>, sel: seq<Cell>, stat: string)
    requires Valid(raw) && Config(stats, labels)
    requires Present(raw, Ids) && Present(raw, stats) && TextIdentifiers(raw)
    requires forall i :: 0 <= i < |raw.rows| ==> '(' !in raw.rows[i]["Team"].text
    requires forall i, j :: 0 <= i < j < |raw.rows| ==>
               raw.rows[i]["Name"] != raw.rows[j]["Name"] || raw.rows[i]["Team"] != raw.rows[j]["Team"]
    requires forall k :: k in sel ==> k in Keys(raw)
    requires stat in labels
    ensures Build(raw, stats, labels).Ok? && Valid(Build(raw, stats, labels).value)
    ensures Build(raw, stats, labels).value.index.Keyed?
    ensures var r := Locate(Build(raw, stats, labels).value, sel, stat);
            && r.Ok? && r.value.columns == [KeyColumn, stat] && |r.value.rows| == |sel|
            && forall j :: 0 <= j < |sel| ==>
                 var p, c := IndexOf(Keys(raw), sel[j]), IndexOf(labels, stat);
                 stats[c] in raw.rows[p] &&
                 r.value.rows[j] == map[KeyColumn := sel[j], stat := raw.rows[p][stats[c]]]
  {
    Built(raw, stats, labels);
    BuiltValid(raw, stats, labels);
    BuiltKeysDistinct(raw, stats, labels);
    var t := Build(raw, stats, labels).value;
    LocateOnePerLabel(t, sel, stat);
    var c := IndexOf(labels, stat);
    forall j | 0 <= j < |sel|
      ensures stats[c] in raw.rows[IndexOf(Keys(raw), sel[j])]
      ensures t.rows[IndexOf(Keys(raw), sel[j])][stat] == raw.rows[IndexOf(Keys(raw), sel[j])][stats[c]]
    {
      var p := IndexOf(Keys(raw), sel[j]);
      assert labels[c] == stat;
    }
  }

  /** The two ways the construction fails: KeyError when an allow-list column is
      missing, TypeError when every column is there but some name or team is not
      text. With `Built` this makes success exactly the case of both holding. */
  lemma BuildFails(raw: Table, stats: seq<string>, labels: seq<string>)
    requires Valid(raw) && Config(stats, labels)
    ensures !(Present(raw, Ids) && Present(raw, stats)) ==> Build(raw, stats, labels) == Err(KeyError)
    ensures Present(raw, Ids) && Present(raw, stats) && !TextIdentifiers(raw) ==>
              Build(raw, stats, labels) == Err(TypeError)
  {
    ConfigFacts(stats, labels);
    Allowlist.PrepareStep(raw, Ids, stats, labels);
    if Present(raw, Ids) && Present(raw, stats) {
      var renamed := Allowlist.Prepare(raw, Ids, stats, labels).value;
      assert Ids[1] == "Name" && Ids[2] == "Team";
      assert "Name" in renamed.columns && "Team" in renamed.columns;
      SameKeys(renamed, raw);
    }
  }

  /** The page's import-time construction, step by step on one DataFrame object:
      select and copy, rename in place, assign the key column, set it as the
      index in place, drop the identifiers in place. It fails exactly when
      `Build` does, with the same error, and otherwise holds `Build`'s table. */
  method Load(raw: Table, stats: seq<string>, labels: seq<string>) returns (r: Result<DataFrame>)
    requires Valid(raw) && Config(stats, labels)
    ensures r.Ok? <==> Build(raw, stats, labels).Ok?
    ensures r.Err? ==> r.error == Build(raw, stats, labels).error
    ensures r.Ok? ==> fresh(r.value) && r.value.Value() == Build(raw, stats, labels).value
  {
    ConfigFacts(stats, labels);
    var selected := Select(raw, Ids + stats);
    if selected.Err? {
      return Err(selected.error);
    }
    var frame := new DataFrame(selected.value);
    frame.Rename(Dict(stats, labels));
    var renamed := frame.Value();
    assert renamed == Allowlist.Prepare(raw, Ids, stats, labels).value;
    var keys := DeriveKeys(renamed);
    if keys.Err? {
      return Err(keys.error);
    }
    frame.AssignColumn(KeyColumn, keys.value);
    // The key column was just added and the identifiers were selected, so
    // neither of the last two steps can raise.
    var outcome := frame.SetIndex(KeyColumn);
    assert outcome.Done?;
    assert Index(raw, stats, labels) == Ok(frame.Value());
    AssignSetIndexColumns(renamed, KeyColumn, keys.value);
    assert frame.columns == Ids + labels;
    outcome := frame.Drop(Ids);
    assert outcome.Done?;
    return Ok(frame);
  }

  /** The position of the last `c` in `s`, if any. */
  function LastIndexOf(s: string, c: char): (r: Option<nat>)
    ensures r.Some? ==> r.value < |s| && s[r.value] == c && forall j :: r.value < j < |s| ==> s[j] != c
    ensures r.None? ==> c !in s
  {
    if |s| == 0 then None
    else if s[|s| - 1] == c then Some(|s| - 1)
    else LastIndexOf(s[..|s| - 1], c)
  }

  /** Reads a key back into its name and team, splitting at the last opening
      parenthesis: the key must end in `)` and have a space before that parenthesis. */
  function ParseKey(key: string): (r: Option<(string, string)>)
    ensures r.Some? ==> KeyText(r.value.0, r.value.1) == key && '(' !in r.value.1
  {
    match LastIndexOf(key, '(')
    case None => None
    case Some(p) =>
      if 1 <= p < |key| - 1 && key[p - 1] == ' ' && key[|key| - 1] == ')' then
        var name, team := key[..p - 1], key[p + 1..|key| - 1];
        assert KeyText(name, team) == key by {
          assert key == key[..p - 1] + key[p - 1..p + 1] + key[p + 1..|key| - 1] + key[|key| - 1..];
        }
        assert '(' !in team by {
          forall j | 0 <= j < |team| ensures team[j] != '(' {
            assert team[j] == key[p + 1 + j];
          }
        }
        Some((name, team))
      else None
  }

  /** Every key reads back as the name and team it was made from, provided the team
      holds no opening parenthesis (a name may hold any). */
  lemma {:induction false} ParseKeyOf(name: string, team: string)
    requires '(' !in team
    ensures ParseKey(KeyText(name, team)) == Some((name, team))
  {
    var key := KeyText(name, team);
    var q := |name| + 1;
    assert key[q] == '(';
    assert forall j :: q < j < |key| ==> key[j] != '(' by {
      forall j | q < j < |key| ensures key[j] != '(' {
        if j < |key| - 1 {
          assert key[j] == team[j - q - 1];
        }
      }
    }
    var r := LastIndexOf(key, '(');
    assert r == Some(q);
    assert key[..q - 1] == name;
    assert key[q + 1..|key| - 1] == team;
  }

  /** Different (name, team) pairs give different keys when no team holds an
      opening parenthesis. */
  lemma KeyTextInjective(n1: string, t1: string, n2: string, t2: string)
    requires '(' !in t1 && '(' !in t2
    requires KeyText(n1, t1) == KeyText(n2, t2)
    ensures n1 == n2 && t1 == t2
  {
    ParseKeyOf(n1, t1);
    ParseKeyOf(n2, t2);
  }

  /** When no two raw rows share a name and team, and no team holds an opening
      parenthesis, the built index labels each row with its own key. */
  lemma BuiltKeysDistinct(raw: Table, stats: seq<string>, labels: seq<string>)
    requires Valid(raw) && Config(stats, labels)
    requires Present(raw, Ids) && Present(raw, stats) && TextIdentifiers(raw)
    requires forall i :: 0 <= i < |raw.rows| ==> '(' !in raw.rows[i]["Team"].text
    requires forall i, j :: 0 <= i < j < |raw.rows| ==>
               raw.rows[i]["Name"] != raw.rows[j]["Name"] || raw.rows[i]["Team"] != raw.rows[j]["Team"]
    ensures Build(raw, stats, labels).Ok?
    ensures Distinct(Build(raw, stats, labels).value.index.keys)
  {
    Built(raw, stats, labels);
    var keys := Keys(raw);
    forall i, j | 0 <= i < j < |keys| ensures keys[i] != keys[j] {
      if keys[i] == keys[j] {
        KeyTextInjective(raw.rows[i]["Name"].text, raw.rows[i]["Team"].text,
                         raw.rows[j]["Name"].text, raw.rows[j]["Team"].text);
      }
    }
  }
}

