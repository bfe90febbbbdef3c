/** The summary listing (`getAllPedido1DTO`): each row of the summary query
    becomes one summary record, in the same order. */
module OrderSummary {
  import opened Wrappers
  import opened OrderStatus

  /** One row of the summary query, its seven positions in their fixed order:
      number, date, establishment name, waiter name, customer name, line count,
      status. */
  datatype Row = Row(
    number: int,
    date: int,
    establishment: string,
    waiterName: string,
    customerName: string,
    lineCount: int,
    status: Status)

  /** A `Pedido1DTO`: the row with its status rendered as a label. */
  datatype Summary = Summary(
    number: int,
    date: int,
    establishment: string,
    waiterName: string,
    customerName: string,
    lineCount: int,
    statusLabel: string)

  /** Reads a summary back into the row it came from, if its label names a status. */
  function Restore(s: Summary): Option<Row> {
    match ParseLabel(s.statusLabel)
    case None => None
    case Some(status) =>
      Some(Row(s.number, s.date, s.establishment, s.waiterName, s.customerName, s.lineCount, status))
  }

  /** The mapping applied to one row: the projection loses nothing. */
  function Summarize(row: Row): (s: Summary)
    ensures Restore(s) == Some(row)
    ensures s.statusLabel == Label(row.status)
  {
    Summary(row.number, row.date, row.establishment, row.waiterName, row.customerName,
            row.lineCount, Label(row.status))
  }

  /** The whole listing: one summary per row, position by position. */
  function SummarizeAll(rows: seq<Row>): (r: seq<Summary>)
    ensures |r| == |rows|
    ensures forall i :: 0 <= i < |rows| ==> Restore(r[i]) == Some(rows[i])
  {
    if rows == [] then []
    else [Summarize(rows[0])] + SummarizeAll(rows[1..])
  }
}
