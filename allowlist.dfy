/**
 * The first stage every page shares: select the allow-list (the identifier
 * columns `ids`, then the statistic columns `stats`) and copy it, then rename
 * the statistic columns through the dictionary from `stats` to `labels`.
 */
module Allowlist {
  import opened Seqs
  import opened Frame
  import opened Renames

  /** What the stage needs of an allow-list and its dictionary: no identifier,
      column or label is written twice, the dictionary is aligned with the
      statistic columns, and neither columns nor labels collide with an identifier. */
  predicate Config(ids: seq<string>, stats: seq<string>, labels: seq<string>) {
    && Distinct(ids)
    && |stats| == |labels|
    && Distinct(stats) && Distinct(labels)
    && Disjoint(ids, stats) && Disjoint(ids, labels)
  }

  lemma ConfigFacts(ids: seq<string>, stats: seq<string>, labels: seq<string>)
    requires Config(ids, stats, labels)
    ensures Distinct(ids + stats) && Distinct(ids + labels)
    ensures RenameAll(ids + stats, Dict(stats, labels)) == ids + labels
  {
    DistinctAppend(ids, stats);
    DistinctAppend(ids, labels);
    RenameWithDict(ids, stats, labels);
  }

  /** `raw[ids + stats].copy()` renamed through the dictionary. */
  function Prepare(raw: Table, ids: seq<string>, stats: seq<string>, labels: seq<string>): (r: Result<Table>)
    requires Valid(raw) && Config(ids, stats, labels)
    ensures r.Ok? ==> Valid(r.value) && r.value.columns == ids + labels
  {
    ConfigFacts(ids, stats, labels);
    match Select(raw, ids + stats)
    case Err(e) => Err(e)
    case Ok(selected) => Ok(Rename(selected, Dict(stats, labels)))
  }

  /** The stage succeeds exactly when the allow-list is present, and raises
      KeyError otherwise; the identifiers keep the fetched cells and every label
      holds the fetched cells of the column it renames. */
  lemma PrepareStep(raw: Table, ids: seq<string>, stats: seq<string>, labels: seq<string>)
    requires Valid(raw) && Config(ids, stats, labels)
    ensures Prepare(raw, ids, stats, labels).Ok? <==> Present(raw, ids) && Present(raw, stats)
    ensures Prepare(raw, ids, stats, labels).Err? ==> Prepare(raw, ids, stats, labels).error == KeyError
    ensures Prepare(raw, ids, stats, labels).Ok? ==>
              var renamed := Prepare(raw, ids, stats, labels).value;
              && renamed.index == raw.index && |renamed.rows| == |raw.rows|
              && (forall i, j :: 0 <= i < |raw.rows| && 0 <= j < |ids| ==>
                    ids[j] in renamed.rows[i] && renamed.rows[i][ids[j]] == raw.rows[i][ids[j]])
              && (forall i, k :: 0 <= i < |raw.rows| && 0 <= k < |labels| ==>
                    stats[k] in raw.rows[i] && labels[k] in renamed.rows[i] &&
                    renamed.rows[i][labels[k]] == raw.rows[i][stats[k]])
  {
    ConfigFacts(ids, stats, labels);
    PresentAppend(raw, ids, stats);
    if Present(raw, ids + stats) {
      SelectRenameCells(raw, ids, stats, labels);
    }
  }
}
