/**
 * The module-level DataFrame each page builds at import time. Its steps change the
 * object in place (`inplace=True`, column assignment), so it is a class whose
 * fields the methods reassign; `Value()` is the table it currently holds, and each
 * method's new value is the matching operation of module Frame applied to the
 * old one. A step that raises leaves the object as it was.
 */
module DataFrames {
  import opened Seqs
  import opened Frame

  class DataFrame {
    var columns: seq<string>
    var index: Index
    var rows: seq<Row>

    function Value(): Table
      reads this
    {
      Table(columns, index, rows)
    }

    /** A new frame holding `t`: the `.copy()` that starts each page's table. */
    constructor (t: Table)
      ensures Value() == t
    {
      columns, index, rows := t.columns, t.index, t.rows;
    }

    /** `rename(columns=m, inplace=True)`. */
    method Rename(m: map<string, string>)
      requires Valid(Value()) && Distinct(RenameAll(columns, m))
      modifies this
      ensures Value() == Frame.Rename(old(Value()), m)
      ensures Valid(Value())
    {
      var t := Frame.Rename(Value(), m);
      columns, index, rows := t.columns, t.index, t.rows;
    }

    /** `self[name] = vals`. */
    method AssignColumn(name: string, vals: seq<Cell>)
      requires Valid(Value()) && |vals| == |rows|
      modifies this
      ensures Value() == Assign(old(Value()), name, vals)
      ensures Valid(Value())
    {
      var t := Assign(Value(), name, vals);
      columns, index, rows := t.columns, t.index, t.rows;
    }

    /** `set_index(name, inplace=True)`; on KeyError nothing changes. */
    method SetIndex(name: string) returns (outcome: Outcome)
      requires Valid(Value())
      modifies this
      ensures outcome.Done? <==> name in old(columns)
      ensures outcome.Done? ==> Frame.SetIndex(old(Value()), name) == Ok(Value())
      ensures outcome.Raised? ==> outcome.error == KeyError && Value() == old(Value())
      ensures Valid(Value())
    {
      var r := Frame.SetIndex(Value(), name);
      if r.Ok? {
        columns, index, rows := r.value.columns, r.value.index, r.value.rows;
        outcome := Done;
      } else {
        outcome := Raised(r.error);
      }
    }

    /** `drop(columns=names, inplace=True)`; on KeyError nothing changes. */
    method Drop(names: seq<string>) returns (outcome: Outcome)
      requires Valid(Value())
      modifies this
      ensures outcome.Done? <==> forall c :: c in names ==> c in old(columns)
      ensures outcome.Done? ==> Frame.Drop(old(Value()), names) == Ok(Value())
      ensures outcome.Raised? ==> outcome.error == KeyError && Value() == old(Value())
      ensures Valid(Value())
    {
      var r := Frame.Drop(Value(), names);
      if r.Ok? {
        columns, index, rows := r.value.columns, r.value.index, r.value.rows;
        outcome := Done;
      } else {
        outcome := Raised(r.error);
      }
    }
  }
}
