/** The durable request allowance: one row per (scope, window), read and updated in transactions. */
module Budget {
  import opened Basics

  // A stored row.  The table only ever receives integers from this code.
  datatype Row = Row(allowance: int, consumed: int)

  datatype Snapshot = Snapshot(scope: Text, windowId: Text, allowance: int, consumed: int)

  datatype BudgetError = InvalidArgument | StateError | Exceeded

  type Window = (Text, Text)

  type Table = map<Window, Row>

  predicate Sound(row: Row) { 0 <= row.consumed <= row.allowance }

  predicate SoundTable(rows: Table) { forall w :: w in rows ==> Sound(rows[w]) }

  predicate ValidWindow(w: Window) { !Blank(w.0) && !Blank(w.1) }

  /* ---------- what one committed transaction does to one row ---------- */

  function Configured(found: Option<Row>, allowance: int): Result<Row, BudgetError> {
    match found
    case None => Ok(Row(allowance, 0))
    case Some(row) =>
      if row.allowance != allowance || row.consumed < 0 || row.consumed > row.allowance then Err(StateError)
      else Ok(row)
  }

  function Consumed(found: Option<Row>, amount: int): Result<Row, BudgetError> {
    match found
    case None => Err(StateError)
    case Some(row) =>
      if !Sound(row) then Err(StateError)
      else if amount > row.allowance - row.consumed then Err(Exceeded)
      else Ok(Row(row.allowance, row.consumed + amount))
  }

  function Look(rows: Table, w: Window): Option<Row> { if w in rows then Some(rows[w]) else None }

  /** `RequestBudget` over its table. */
  class RequestBudget {
    var rows: Table

    constructor ()
      ensures rows == map[]
    {
      rows := map[];
    }

    method Configure(scope: Text, windowId: Text, allowance: int) returns (r: Result<Snapshot, BudgetError>)
      modifies this
      ensures var w := (scope, windowId);
              if !ValidWindow(w) || allowance < 0 then r == Err(InvalidArgument) && rows == old(rows)
              else match Configured(Look(old(rows), w), allowance)
                case Err(e) => r == Err(e) && rows == old(rows)
                case Ok(row) => r == Ok(Snapshot(scope, windowId, row.allowance, row.consumed)) && rows == old(rows)[w := row]
      ensures old(SoundTable(rows)) ==> SoundTable(rows)
      ensures r.Ok? <==>
              !Blank(scope) && !Blank(windowId) && allowance >= 0 &&
              ((scope, windowId) in old(rows) ==>
                old(rows)[(scope, windowId)].allowance == allowance && 0 <= old(rows)[(scope, windowId)].consumed <= allowance)
      ensures r.Ok? ==>
                var consumed := if (scope, windowId) in old(rows) then old(rows)[(scope, windowId)].consumed else 0;
                rows == old(rows)[(scope, windowId) := Row(allowance, consumed)] && r.value == Snapshot(scope, windowId, allowance, consumed)
      ensures r == Err(InvalidArgument) <==> Blank(scope) || Blank(windowId) || allowance < 0
    {
      var w := (scope, windowId);
      if !ValidWindow(w) || allowance < 0 { return Err(InvalidArgument); }
      var consumed := 0;
      if w !in rows {
        rows := rows[w := Row(allowance, 0)];
      } else {
        var existing := rows[w].allowance;
        consumed := rows[w].consumed;
        if existing != allowance || consumed < 0 || consumed > existing { return Err(StateError); }
      }
      return Ok(Snapshot(scope, windowId, allowance, consumed));
    }

    method Consume(scope: Text, windowId: Text, amount: int) returns (r: Result<Snapshot, BudgetError>)
      modifies this
      ensures var w := (scope, windowId);
              if !ValidWindow(w) || amount <= 0 then r == Err(InvalidArgument) && rows == old(rows)
              else match Consumed(Look(old(rows), w), amount)
                case Err(e) => r == Err(e) && rows == old(rows)
                case Ok(row) => r == Ok(Snapshot(scope, windowId, row.allowance, row.consumed)) && rows == old(rows)[w := row]
      ensures old(SoundTable(rows)) ==> SoundTable(rows)
      ensures r.Ok? <==>
              !Blank(scope) && !Blank(windowId) && amount > 0 && (scope, windowId) in old(rows) &&
              var row := old(rows)[(scope, windowId)];
              0 <= row.consumed <= row.allowance && row.consumed + amount <= row.allowance
      ensures r.Ok? ==>
                var row := old(rows)[(scope, windowId)];
                rows == old(rows)[(scope, windowId) := Row(row.allowance, row.consumed + amount)] &&
                r.value == Snapshot(scope, windowId, row.allowance, row.consumed + amount)
      ensures r == Err(InvalidArgument) <==> Blank(scope) || Blank(windowId) || amount <= 0
      ensures r == Err(Exceeded) <==>
              !Blank(scope) && !Blank(windowId) && amount > 0 && (scope, windowId) in old(rows) &&
              var row := old(rows)[(scope, windowId)];
              0 <= row.consumed <= row.allowance < row.consumed + amount
    {
      var w := (scope, windowId);
      if !ValidWindow(w) || amount <= 0 { return Err(InvalidArgument); }
      if w !in rows { return Err(StateError); }
      var allowance, consumed := rows[w].allowance, rows[w].consumed;
      if allowance < 0 || consumed < 0 || consumed > allowance { return Err(StateError); }
      if amount > allowance - consumed { return Err(Exceeded); }
      var updated := consumed + amount;
      rows := rows[w := Row(allowance, updated)];
      return Ok(Snapshot(scope, windowId, allowance, updated));
    }

    method ReadSnapshot(scope: Text, windowId: Text) returns (r: Result<Snapshot, BudgetError>)
      ensures var w := (scope, windowId);
              if !ValidWindow(w) then r == Err(InvalidArgument)
              else if w !in rows || !Sound(rows[w]) then r == Err(StateError)
              else r == Ok(Snapshot(scope, windowId, rows[w].allowance, rows[w].consumed))
    {
      var w := (scope, windowId);
      if !ValidWindow(w) { return Err(InvalidArgument); }
      if w !in rows || rows[w].allowance < 0 || rows[w].consumed < 0 || rows[w].consumed > rows[w].allowance {
        return Err(StateError);
      }
      return Ok(Snapshot(scope, windowId, rows[w].allowance, rows[w].consumed));
    }
  }
}
