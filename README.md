# MLB comparison dashboard: the statistics tables and their chart callbacks

The dashboard has three pages of interest: team batting, player batting and
pitching. Each page builds one pandas DataFrame at import time, in place:

1. it selects a fixed allow-list of columns from the fetched season table and copies it;
2. it renames the statistic columns through a fixed dictionary to human-readable labels;
3. it makes a key the row index. The key is the team abbreviation, or a key column
   `Name (Team)` formed as the name, a space and the team in parentheses;
4. it drops the identifier columns.

The renamed columns then become the options of the statistic dropdowns. On the
two bar-chart pages the index also becomes the options of the entity dropdown.

The two batting pages draw a bar chart from
`table.loc[entities, stat].copy().reset_index()`. An empty dropdown value is first
replaced by a fixed default: `Home Runs (HR)` with `HOU`, or with
`Aaron Judge (NYY)`. The pitching page draws a scatter plot of two chosen columns
over every row, with the index key as the hover name, and substitutes no defaults.

The Dafny model has these modules:

- `Frame`: a table as an ordered column list, an index and rows looked up by
  column name. Each pandas call the pages make is a function on it: `Select`,
  `Rename`, `Assign`, `SetIndex`, `Drop`, and `Locate` for `.loc[...]` followed
  by `reset_index`. `Select`, `SetIndex` and `Drop` raise KeyError. `Locate`
  raises KeyError or ValueError. `Rename` and `Assign` cannot fail.
- `DataFrames`: the mutable DataFrame object. A class whose in-place methods
  move it from one table value to the next.
- `Renames`: the map a rename dictionary literal denotes (`Dict`), built from a
  key sequence and its aligned labels, and how renaming through it acts on
  columns and cells. Each page's own dictionary has the keys `RenameKeys`
  and the labels `StatLabels` of its module. The construction passes
  `StatColumns` as the keys, which `RenameKeysAreColumns` proves to be the same list.
- `Allowlist`: the stage every page starts with. It selects the allow-list,
  copies it and renames it through the dictionary.
- `TeamBatting`, `PlayerTables`, `PlayerBatting`, `Pitching`: the construction
  of each page, both as a pure `Build` function and as a `Load` method running
  the in-place steps on a `DataFrame`. They also hold each page's dropdown
  options, initial values and callback. Deriving the `Name (Team)` key
  (`PlayerTables.DeriveKeys`) raises TypeError when a name or team is not text.
  The scatter callback (`Pitching.Charts`) raises ValueError when an axis is not
  a column.
- `BarChart`: the default substitution and subset shared by the two bar-chart callbacks.
- `Seqs`: sequence facts used throughout.

The fetched table, which is the pybaseball result, is a parameter of every
construction. Statistic cells are opaque numeric tokens.

The pages never check that row keys are unique, and pandas accepts a duplicated
index. A duplicated key therefore selects every row it labels, once each and in
index order (`Frame.Matches`, `Frame.Gather`). The one-bar-per-entity lemmas
assume unique keys instead: distinct teams, or distinct (name, team) pairs.

The only errors the construction raises are pandas' own. A missing allow-list
column raises KeyError, and a name or team that is not text raises TypeError.

## Model

| member | source | states |
|---|---|---|
| `Frame.Select` | pages/team-batting.py:11 | `t[names].copy()` succeeds exactly when every name is a column and raises KeyError otherwise; the result has the listed columns in the listed order, the same index and row count, and every selected cell unchanged |
| `Frame.Rename` | pages/team-batting.py:12-47 | each column takes its dictionary label or keeps its name, in the same order; index, row count and every cell stay, under the new label |
| `Frame.Assign` | pages/player-batting.py:40 | assigning a column overwrites an existing one or appends a new one last; the new column holds the given values, every other cell stays |
| `Frame.SetIndex` | pages/team-batting.py:52 | succeeds exactly when the name is a column (else KeyError); the column's cells in row order become the index, the column leaves the value columns, the other columns keep order and cells |
| `Frame.Drop` | pages/team-batting.py:55 | succeeds exactly when every listed name is a column (else KeyError, nothing dropped); the remaining columns keep order, index and cells |
| `Frame.Column` | pages/player-batting.py:40 | `t[c]` has one cell per row: each row's cell of that column, in row order |
| `Frame.StatList` | pages/team-batting.py:58 | no contract of its own: the options are the table's columns in order; each page's `Built` states that they are exactly its labels |
| `Frame.EntityList` | pages/team-batting.py:59 | no contract of its own: the options are the index keys in order; `PlayerBatting.Built` states that they are every fetched row's key, and `TeamBatting.Built` that the index is the fetched `Team` column |
| `Frame.AssignSetIndex` | pages/player-batting.py:40-42 | adding a new column and making it the index gives the original columns and rows with the values as index |
| `Frame.DropLeading` | pages/player-batting.py:45 | dropping the leading identifier columns leaves exactly the rest, in order |
| `Frame.Matches` | pages/team-batting.py:178 | the positions returned carry the selected label, each once and in increasing index order, and a label absent from the index matches nothing |
| `Frame.MatchesComplete` | pages/team-batting.py:178 | every position whose label is the selected one is among the matches |
| `Frame.MatchesDistinct` | pages/player-batting.py:168 | with a repetition-free index a present label matches exactly its own row |
| `Frame.Gather` | pages/team-batting.py:178 | every gathered position names a row; `Matches` and `MatchesComplete` state what each label contributes, `GatherDistinct` that a repetition-free index gives one position per label in selection order |
| `Frame.GatherDistinct` | pages/player-batting.py:168 | with a repetition-free index and every label present, `.loc[sel]` picks one row per label, in selection order |
| `Frame.Locate` | pages/team-batting.py:178 | `.loc[sel, stat].copy().reset_index()` succeeds exactly when every label is in the index, the statistic is a column and it is not the index name; an unknown label or column gives KeyError, a name clash ValueError; the result has columns `[index name, stat]`, a positional index, and for each gathered row its label and its statistic cell |
| `Frame.LocateOnePerLabel` | pages/player-batting.py:168 | with unique labels, the subset has one row per selected label, in order, holding that label and the statistic of the row it names |
| `DataFrames.DataFrame.constructor` | pages/team-batting.py:11 | the new frame holds the selected copy |
| `DataFrames.DataFrame.Rename` | pages/team-batting.py:12-47 | the in-place rename leaves the frame holding `Frame.Rename` of its old table |
| `DataFrames.DataFrame.AssignColumn` | pages/player-batting.py:40 | the in-place assignment leaves the frame holding `Frame.Assign` of its old table |
| `DataFrames.DataFrame.SetIndex` | pages/player-batting.py:42 | reports Done exactly when the name was a column, then holds `Frame.SetIndex` of its old table; on KeyError the frame is unchanged |
| `DataFrames.DataFrame.Drop` | pages/player-batting.py:45 | reports Done exactly when every name was a column, then holds `Frame.Drop` of its old table; on KeyError the frame is unchanged |
| `Renames.Dict` | pages/team-batting.py:13-45 | the dictionary literal's keys are exactly the written keys |
| `Renames.DictAt` | pages/team-batting.py:13-45 | with no key written twice, each key maps to the label written beside it |
| `Renames.RenameWithDict` | pages/player-batting.py:12-36 | renaming identifiers followed by the dictionary's keys gives the identifiers unchanged followed by the labels, in order |
| `Renames.RenameCells` | pages/pitching.py:12-37 | after the rename each identifier keeps its cells and each label holds the cells of the key written beside it |
| `Renames.SelectRenameCells` | pages/pitching.py:11-37 | select then rename: the result has identifiers then labels as columns, the fetched index and row count, and under each label the fetched cell of its key |
| `BarChart.Stat` | pages/team-batting.py:171-172 | an empty statistic choice becomes the default; any other choice is kept as it is |
| `BarChart.Entities` | pages/player-batting.py:164-165 | an empty entity choice becomes the single default entity; any other choice is kept as it is, in order |
| `BarChart.Subset` | pages/team-batting.py:170-178 | no contract of its own: `Locate` of the chosen or default entities and statistic; `SubsetOfNothing`, `SubsetOnePerEntity` and `SubsetRejects` state what it yields |
| `BarChart.SubsetOfNothing` | pages/player-batting.py:160-168 | with both dropdowns empty the subset is that of the default entity and default statistic |
| `BarChart.SubsetOnePerEntity` | pages/team-batting.py:170-178 | with unique keys, known entities and a value-column statistic the subset succeeds with columns `[key name, stat]` and one row per shown entity, in order, holding its key and its statistic |
| `BarChart.SubsetRejects` | pages/player-batting.py:168 | choices are not filtered: one unknown entity or an unknown statistic makes the callback raise KeyError |
| `TeamBatting.ConfigHolds` | pages/team-batting.py:11-47 | the 31 statistic columns and the 31 labels are each repetition-free, aligned, and disjoint from `Season` and `Team` |
| `TeamBatting.RenameKeysAreColumns` | pages/team-batting.py:11-45 | the rename dictionary's keys, written as their own list, are the allow-list's 31 statistic columns in the same order, so every selected statistic has exactly one rename entry |
| `Allowlist.Prepare` | pages/team-batting.py:11-47 | a successful select and rename has the identifier columns, then the labels, as columns |
| `Allowlist.PrepareStep` | pages/player-batting.py:11-36 | select and rename succeed exactly when the allow-list is present (else KeyError); identifiers keep the fetched cells and each label holds the cells of the column it renames |
| `TeamBatting.IndexStep` | pages/team-batting.py:52 | indexing by `Team` leaves `Season` followed by the labels |
| `TeamBatting.BuildWith` | pages/team-batting.py:11-55 | no contract of its own: select and rename, index by `Team`, drop `Season`; `BuiltWith` and `LoadWith` state what it yields |
| `TeamBatting.BuiltWith` | pages/team-batting.py:11-55 | with the allow-list present, the construction has the labels as columns, the fetched `Team` column as index, and the fetched cells under the labels |
| `TeamBatting.DropKeeps` | pages/team-batting.py:55 | dropping `Season` keeps every labelled cell |
| `TeamBatting.Build` | pages/team-batting.py:10-55 | no contract of its own: `BuildWith` on the page's columns and labels; `Built`, `BuildFails` and `Load` state what it yields |
| `TeamBatting.Built` | pages/team-batting.py:10-59 | the stat list is exactly the 31 labels in dictionary order, the team list is the fetched `Team` column in order, and each cell is the fetched cell of the renamed column |
| `TeamBatting.BuildFails` | pages/team-batting.py:11-55 | the construction fails exactly when an allow-list column is missing, and then with KeyError |
| `TeamBatting.LoadWith` | pages/team-batting.py:11-55 | the in-place steps on a DataFrame fail exactly when `BuildWith` does, with its error, and otherwise leave a fresh frame holding its table |
| `TeamBatting.Load` | pages/team-batting.py:10-55 | the page's in-place construction agrees with `Build`: same success, same error, same table |
| `TeamBatting.ClearedIsInitial` | pages/team-batting.py:170-175 | clearing both dropdowns gives the same subset as the initial values `Home Runs (HR)` and `['HOU']` |
| `TeamBatting.DefaultStatOffered` | pages/team-batting.py:103-113 | the backfill statistic `Home Runs (HR)` is one of the statistic dropdown's options |
| `TeamBatting.Charts` | pages/team-batting.py:170-178 | no contract of its own: `Subset` with the `Home Runs (HR)` and `HOU` defaults; `ClearedIsInitial` and `ChartsOnePerTeam` state what it yields |
| `TeamBatting.ChartsOnePerTeam` | pages/team-batting.py:170-178 | with distinct teams, known teams and an offered statistic, the chart data has columns `Team` and the statistic and one row per chosen team, in order, with that team's fetched value of the renamed column |
| `PlayerTables.Keys` | pages/player-batting.py:40 | each row's key is `Name + " (" + Team + ")"`, in row order |
| `PlayerTables.DeriveKeys` | pages/pitching.py:41 | the key column is computed exactly when every name and team is text, and is then every row's `Name (Team)` key in row order; otherwise TypeError |
| `PlayerTables.SameKeys` | pages/player-batting.py:40 | two tables with the same names and teams have the same keys |
| `PlayerTables.Index` | pages/player-batting.py:40-42 | a successful key derivation and indexing gives a well-formed table; `KeyStage`, `IndexStage` and `IndexCells` state its columns, index and cells |
| `PlayerTables.KeyStage` | pages/player-batting.py:40-42 | adding the key column and making it the index indexes the renamed table by the fetched rows' keys, leaving its columns and rows |
| `PlayerTables.IndexStage` | pages/pitching.py:41-43 | the indexed table has identifiers then labels, the key index in fetch order, and the fetched cells under the labels |
| `PlayerTables.IndexCells` | pages/pitching.py:41-43 | under each label the indexed table holds the fetched cells of the column it renames |
| `PlayerTables.DropStage` | pages/player-batting.py:45 | dropping `Season`, `Name`, `Team` leaves exactly the labels with index and labelled cells unchanged |
| `PlayerTables.Build` | pages/player-batting.py:11-45 | no contract of its own: `Index`, then drop the identifiers; `Built`, `BuiltValid`, `BuildFails` and `Load` state what it yields |
| `PlayerTables.Built` | pages/player-batting.py:10-49 | with the allow-list present and text identifiers, the table has the labels as columns, the `Name (Team)` index holding every fetched row's key in order, and the fetched cells under the labels |
| `PlayerTables.BuiltValid` | pages/pitching.py:10-46 | the built table is well formed |
| `PlayerTables.BuildFails` | pages/player-batting.py:11-45 | a missing allow-list column makes the construction raise KeyError; with the columns present, a name or team that is not text makes it raise TypeError |
| `PlayerTables.Load` | pages/player-batting.py:10-45 | the in-place steps on a DataFrame fail exactly when `Build` does, with its error, and otherwise leave a fresh frame holding its table |
| `PlayerTables.ParseKey` | pages/player-batting.py:40 | a key parsed back gives a name and a parenthesis-free team whose key is the input |
| `PlayerTables.ParseKeyOf` | pages/pitching.py:41 | every key reads back as its own name and team when the team has no `(` |
| `PlayerTables.KeyTextInjective` | pages/player-batting.py:40 | different (name, team) pairs give different keys when no team has `(` |
| `PlayerTables.BuiltKeysDistinct` | pages/player-batting.py:42-49 | with unique (name, team) pairs, the built index holds no key twice |
| `PlayerTables.LocateOnePerKey` | pages/player-batting.py:168 | with unique keys, the subset for known keys and a label has one row per selected key, in order, holding the key and the fetched cell of the renamed column |
| `PlayerBatting.ConfigHolds` | pages/player-batting.py:11-36 | the 20 statistic columns and labels are aligned, repetition-free, disjoint from the identifiers, and no label is `Name (Team)` |
| `PlayerBatting.RenameKeysAreColumns` | pages/player-batting.py:11-36 | the rename dictionary's keys, written as their own list, are the allow-list's 20 statistic columns in the same order |
| `PlayerBatting.Build` | pages/player-batting.py:10-45 | no contract of its own: the shared construction on the page's columns and labels; `Built`, `BuildFails` and `Load` state what it yields |
| `PlayerBatting.Built` | pages/player-batting.py:10-49 | the stat list is exactly the 20 labels in order, the player list is every fetched row's `Name (Team)` key in order, and each cell is the fetched cell of the renamed column |
| `PlayerBatting.BuildFails` | pages/player-batting.py:11-45 | KeyError when an allow-list column is missing, TypeError when a name or team is not text |
| `PlayerBatting.Load` | pages/player-batting.py:10-45 | the page's in-place construction agrees with `Build`: same success, same error, same table |
| `PlayerBatting.ClearedIsInitial` | pages/player-batting.py:160-165 | clearing both dropdowns gives the same subset as the initial values `Home Runs (HR)` and `['Aaron Judge (NYY)']` |
| `PlayerBatting.DefaultStatOffered` | pages/player-batting.py:93-103 | the backfill statistic `Home Runs (HR)` is one of the statistic dropdown's options |
| `PlayerBatting.Charts` | pages/player-batting.py:160-168 | no contract of its own: `Subset` with the `Home Runs (HR)` and `Aaron Judge (NYY)` defaults; `ClearedIsInitial` and `ChartsOnePerPlayer` state what it yields |
| `PlayerBatting.ChartsOnePerPlayer` | pages/player-batting.py:160-168 | with unique (name, team) pairs, known players and an offered statistic, the chart data has columns `Name (Team)` and the statistic and one row per chosen player, in order, with that player's fetched value of the renamed column |
| `Pitching.ConfigHolds` | pages/pitching.py:11-37 | the 21 statistic columns and labels are aligned, repetition-free, disjoint from the identifiers, and no label is `Name (Team)` |
| `Pitching.RenameKeysAreColumns` | pages/pitching.py:11-37 | the rename dictionary's keys, written as their own list, are the allow-list's 21 statistic columns in the same order |
| `Pitching.Build` | pages/pitching.py:10-46 | no contract of its own: the shared construction on the page's columns and labels; `Built`, `BuildFails` and `Load` state what it yields |
| `Pitching.Built` | pages/pitching.py:10-49 | the stat list offered to both axes is exactly the 21 labels in order, the index is every fetched row's `Name (Team)` key in order, and each cell is the fetched cell of the renamed column |
| `Pitching.BuildFails` | pages/pitching.py:11-46 | KeyError when an allow-list column is missing, TypeError when a name or team is not text |
| `Pitching.Load` | pages/pitching.py:10-46 | the page's in-place construction agrees with `Build`: same success, same error, same table |
| `Pitching.InitialAxesAreLabels` | pages/pitching.py:17-30 | `Innings Pitched (IP)` and `Earned Run Average (ERA)` are among the labels |
| `Pitching.InitialAxesOffered` | pages/pitching.py:94-119 | both axis dropdowns' initial values are among the options both dropdowns share |
| `Pitching.Charts` | pages/pitching.py:158-166 | the scatter succeeds exactly when both axes are columns (else ValueError); it has one point per row of the whole table, in row order, with the row's index key as hover name and its two cells |
| `Pitching.ChartsEveryPitcher` | pages/pitching.py:158-166 | for two offered statistics there is a point for every fetched pitcher, in fetch order, with the pitcher's key and fetched values of the two renamed columns |
| `Pitching.EmptyAxisRaises` | pages/pitching.py:158-163 | no default is substituted: an empty axis value makes the callback raise ValueError |
| `Pitching.ColumnsNotEmpty` | pages/pitching.py:12-37 | no label is the empty string |

The pages' callbacks are functions of the table value, so no callback can
modify the module-level table.

## Left out

- Fetching the season tables from pybaseball: the fetched table is a parameter of construction.
- The plotly figures and their styling: axis fonts, grid, traces, `categoryorder`, titles and orientation. Only the data handed to `px.bar` and `px.scatter` is modelled.
- The Dash wiring: page registration, layout markup, the server and the pages home.py and app.py. The backfill defaults and the dropdowns' initial values are modelled as constants.
- Numeric values: statistic cells are opaque tokens, and no arithmetic or NaN handling is modelled. Concatenating a non-text name or team raises TypeError in the model. pandas' NaN propagation for missing strings is not modelled.
- The expression statements `.loc[:,('Season')]`, `.loc[:,('Team')]` and `.loc[:,('Name (Team)')]` compute a value that is discarded, so they change nothing and are not modelled.
- Duplicate column names: the model's tables cannot hold two columns of one name.
- Frame.Rename: requires the new labels to be distinct. pandas would accept a rename that produces a duplicate column name, but the pages' dictionaries never do.
- DataFrames.DataFrame.Rename: the same requirement as `Frame.Rename`, for the same reason.
- BarChart.Stat: the team page's statistic dropdown value is a single string. On an empty value the code substitutes the list `['Home Runs (HR)']`. `.loc` with a one-element list gives the same columns after `reset_index` as with the string, so the model uses the string.
- Pitching.Charts: an axis named like the index (`Name (Team)`) is treated as not a column. plotly would plot the index, but the dropdowns never offer that name.
- The default team `HOU` and the default player `Aaron Judge (NYY)` are in the index only when the fetched data holds them. The one-bar lemmas add this as a requirement rather than a fact.
- The labels are kept exactly as written, including `Ground Ball Percentage (GD%)` for the `GB%` column, `Stolen Bases` and `Sacrifice Hits (Bunts)`.
