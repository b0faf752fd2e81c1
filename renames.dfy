/**
 * The pages' rename dictionaries. Every page writes its dictionary literal with
 * the keys in the same order as the statistic part of its allow-list, so the
 * model keeps the dictionary as that key sequence and the aligned sequence of
 * labels, and `Dict` gives the map the literal denotes.
 */
module Renames {
  import opened Seqs
  import opened Frame

  /** The map a literal `{keys[0]: labels[0], keys[1]: labels[1], ...}` denotes: a
      later entry for the same key overrides an earlier one. */
  function Dict(keys: seq<string>, labels: seq<string>): (m: map<string, string>)
    requires |keys| == |labels|
    ensures m.Keys == set k | k in keys
  {
    if |keys| == 0 then map[]
    else Dict(keys[..|keys| - 1], labels[..|labels| - 1])[keys[|keys| - 1] := labels[|labels| - 1]]
  }

  /** With no key written twice, each key maps to the label written beside it. */
  lemma {:induction false} DictAt(keys: seq<string>, labels: seq<string>, j: nat)
    requires |keys| == |labels| && Distinct(keys) && j < |keys|
    ensures keys[j] in Dict(keys, labels) && Dict(keys, labels)[keys[j]] == labels[j]
  {
    var n := |keys|;
    var front, written := keys[..n - 1], labels[..n - 1];
    assert Dict(keys, labels) == Dict(front, written)[keys[n - 1] := labels[n - 1]];
    if j < n - 1 {
      assert Distinct(front) by {
        forall a, b | 0 <= a < b < n - 1 ensures front[a] != front[b] {
          assert front[a] == keys[a] && front[b] == keys[b];
        }
      }
      DictAt(front, written, j);
      assert front[j] == keys[j] && written[j] == labels[j];
      assert keys[j] != keys[n - 1];
    }
  }

  /** Renaming identifier columns followed by the dictionary's keys yields the
      identifiers unchanged followed by the labels, in the same order. */
  lemma RenameWithDict(ids: seq<string>, keys: seq<string>, labels: seq<string>)
    requires |keys| == |labels| && Distinct(keys) && Disjoint(ids, keys)
    ensures RenameAll(ids + keys, Dict(keys, labels)) == ids + labels
  {
    var m := Dict(keys, labels);
    var r := RenameAll(ids + keys, m);
    forall j | 0 <= j < |ids + keys| ensures r[j] == (ids + labels)[j] {
      if j < |ids| {
        assert (ids + keys)[j] == ids[j];
        assert ids[j] !in m;
      } else {
        assert (ids + keys)[j] == keys[j - |ids|];
        DictAt(keys, labels, j - |ids|);
      }
    }
  }

  /** Renaming a table whose columns are identifiers followed by the dictionary's
      keys: the identifiers keep their cells, and each label holds the cells of
      the key written beside it. */
  lemma RenameCells(t: Table, ids: seq<string>, keys: seq<string>, labels: seq<string>)
    requires Valid(t) && t.columns == ids + keys
    requires |keys| == |labels| && Distinct(keys) && Disjoint(ids, keys) && Distinct(ids + labels)
    ensures RenameAll(t.columns, Dict(keys, labels)) == ids + labels
    ensures var r := Rename(t, Dict(keys, labels));
            && r.columns == ids + labels && r.index == t.index && |r.rows| == |t.rows|
            && (forall i, j :: 0 <= i < |t.rows| && 0 <= j < |ids| ==>
                  ids[j] in r.rows[i] && r.rows[i][ids[j]] == t.rows[i][ids[j]])
            && (forall i, k :: 0 <= i < |t.rows| && 0 <= k < |keys| ==>
                  labels[k] in r.rows[i] && r.rows[i][labels[k]] == t.rows[i][keys[k]])
  {
    RenameWithDict(ids, keys, labels);
    RenameKeepsIds(t, ids, keys, labels);
    RenameMovesKeys(t, ids, keys, labels);
  }

  /** Selecting identifiers followed by the dictionary's keys and renaming the
      selection: the identifiers keep the fetched cells, and each label holds the
      fetched cells of the key written beside it. */
  lemma SelectRenameCells(raw: Table, ids: seq<string>, keys: seq<string>, labels: seq<string>)
    requires Valid(raw) && Present(raw, ids + keys)
    requires |keys| == |labels| && Distinct(keys) && Disjoint(ids, keys)
    requires Distinct(ids + keys) && Distinct(ids + labels)
    requires RenameAll(ids + keys, Dict(keys, labels)) == ids + labels
    ensures Select(raw, ids + keys).Ok?
    ensures var r := Rename(Select(raw, ids + keys).value, Dict(keys, labels));
            && r.columns == ids + labels && r.index == raw.index && |r.rows| == |raw.rows|
            && (forall i, j :: 0 <= i < |raw.rows| && 0 <= j < |ids| ==>
                  ids[j] in r.rows[i] && r.rows[i][ids[j]] == raw.rows[i][ids[j]])
            && (forall i, k :: 0 <= i < |raw.rows| && 0 <= k < |keys| ==>
                  keys[k] in raw.rows[i] && labels[k] in r.rows[i] &&
                  r.rows[i][labels[k]] == raw.rows[i][keys[k]])
  {
    var names := ids + keys;
    var sel := Select(raw, names).value;
    RenameCells(sel, ids, keys, labels);
    forall i, j | 0 <= i < |raw.rows| && 0 <= j < |ids|
      ensures sel.rows[i][ids[j]] == raw.rows[i][ids[j]]
    {
      assert names[j] == ids[j];
    }
    forall i, k | 0 <= i < |raw.rows| && 0 <= k < |keys|
      ensures keys[k] in raw.rows[i] && sel.rows[i][keys[k]] == raw.rows[i][keys[k]]
    {
      assert names[|ids| + k] == keys[k];
      assert keys[k] in raw.columns;
    }
  }

  lemma RenameKeepsIds(t: Table, ids: seq<string>, keys: seq<string>, labels: seq<string>)
    requires Valid(t) && t.columns == ids + keys
    requires |keys| == |labels| && Disjoint(ids, keys)
    requires RenameAll(t.columns, Dict(keys, labels)) == ids + labels && Distinct(ids + labels)
    ensures var r := Rename(t, Dict(keys, labels));
            forall i, j :: 0 <= i < |t.rows| && 0 <= j < |ids| ==>
              ids[j] in r.rows[i] && r.rows[i][ids[j]] == t.rows[i][ids[j]]
  {
    var m := Dict(keys, labels);
    var r := Rename(t, m);
    forall i, j | 0 <= i < |t.rows| && 0 <= j < |ids|
      ensures ids[j] in r.rows[i] && r.rows[i][ids[j]] == t.rows[i][ids[j]]
    {
      assert t.columns[j] == ids[j];
      assert ids[j] !in m;
    }
  }

  lemma RenameMovesKeys(t: Table, ids: seq<string>, keys: seq<string>, labels: seq<string>)
    requires Valid(t) && t.columns == ids + keys
    requires |keys| == |labels| && Distinct(keys)
    requires RenameAll(t.columns, Dict(keys, labels)) == ids + labels && Distinct(ids + labels)
    ensures var r := Rename(t, Dict(keys, labels));
            forall i, k :: 0 <= i < |t.rows| && 0 <= k < |keys| ==>
              labels[k] in r.rows[i] && r.rows[i][labels[k]] == t.rows[i][keys[k]]
  {
    forall i, k | 0 <= i < |t.rows| && 0 <= k < |keys|
      ensures labels[k] in Rename(t, Dict(keys, labels)).rows[i]
      ensures Rename(t, Dict(keys, labels)).rows[i][labels[k]] == t.rows[i][keys[k]]
    {
      RenameMovesKey(t, ids, keys, labels, i, k);
    }
  }

  lemma RenameMovesKey(t: Table, ids: seq<string>, keys: seq<string>, labels: seq<string>, i: nat, k: nat)
    requires Valid(t) && t.columns == ids + keys
    requires |keys| == |labels| && Distinct(keys)
    requires RenameAll(t.columns, Dict(keys, labels)) == ids + labels && Distinct(ids + labels)
    requires i < |t.rows| && k < |keys|
    ensures labels[k] in Rename(t, Dict(keys, labels)).rows[i]
    ensures Rename(t, Dict(keys, labels)).rows[i][labels[k]] == t.rows[i][keys[k]]
  {
    var m := Dict(keys, labels);
    var j := |ids| + k;
    assert t.columns[j] == keys[k];
    DictAt(keys, labels, k);
    assert Renamed(m, t.columns[j]) == labels[k];
  }
}
