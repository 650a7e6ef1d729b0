/**
 * Shared records: the agent's metric record (entities.Metrics, whose
 * declaration is not part of this model) and the HTML table of
 * internal/entities/index.go.
 */
module Entities {
  import opened Wrappers
  import opened GoStrconv

  /**
   * A metric as the agent stores and sends it: `delta` and `value` stand for
   * the nil-able pointers `*int64` and `*float64`.
   */
  datatype Metrics = Metrics(id: string, mType: string, delta: Option<int>, value: Option<Float64>)

  /** One row of the metrics page. */
  datatype Row = Row(name: string, value: string)

  /** Table: the rows of the metrics page, appended one by one. */
  class Table {
    var rows: seq<Row>

    /** NewTable: no rows. */
    constructor ()
      ensures rows == []
    {
      rows := [];
    }

    /** Put: appends one row; the existing rows stay, in order, as a prefix. */
    method Put(name: string, value: string)
      modifies this
      ensures rows == old(rows) + [Row(name, value)]
      ensures |rows| == |old(rows)| + 1 && rows[..|old(rows)|] == old(rows)
      ensures rows[|rows| - 1].name == name && rows[|rows| - 1].value == value
    {
      rows := rows + [Row(name, value)];
    }
  }
}
