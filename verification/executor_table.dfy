/** The executor table: a row per command, opened by runCommand and finished by the
    executor's result. */
module ExecutorTables {
  import opened Wire
  import opened Scripts
  import opened Database

  datatype Finish = Finish(endTime: int, code: int, returnType: int)

  datatype ExecutorRow = ExecutorRow(id: int, computerId: int, startTime: int, name: string, finish: Option<Finish>)

  function ExecutorIds(rows: seq<ExecutorRow>): seq<int> {
    seq(|rows|, i requires 0 <= i < |rows| => rows[i].id)
  }

  /** RMS_DB_UPDATE_EXECUTOR_TABLE, seen from one row. */
  function Record(row: ExecutorRow, d: RequestData): ExecutorRow {
    if d.ExecutorResult? && d.id == row.id then row.(finish := Some(Finish(d.timeFinished, d.code, d.returnType)))
    else row
  }

  /** How many statements the data of a request have: one for each result. */
  function Statements(data: seq<RequestData>): nat
    decreases |data|
  {
    if data == [] then 0 else Statements(data[..|data| - 1]) + if data[|data| - 1].ExecutorResult? then 1 else 0
  }

  /** The row after all data of a request, under the outcomes of their statements. */
  /** The result is in the row, column by column; the other columns are as before. */
  predicate HoldsResult(before: ExecutorRow, after: ExecutorRow, d: RequestData)
    requires d.ExecutorResult?
  {
    && after.finish.Some? && after.finish.value.endTime == d.timeFinished
    && after.finish.value.code == d.code && after.finish.value.returnType == d.returnType
    && after.id == before.id && after.computerId == before.computerId
    && after.startTime == before.startTime && after.name == before.name
  }

  function RecordAll(row: ExecutorRow, data: seq<RequestData>, script: seq<bool>): ExecutorRow
    decreases |data|
  {
    if data == [] then row
    else
      var front := data[..|data| - 1];
      var row1 := RecordAll(row, front, script);
      if Passes(script, Statements(front)) then Record(row1, data[|data| - 1]) else row1
  }

  function RecordRows(rows: seq<ExecutorRow>, d: RequestData): seq<ExecutorRow> {
    seq(|rows|, i requires 0 <= i < |rows| => Record(rows[i], d))
  }

  /** The table after all data of a request. */
  function RecordedRows(rows: seq<ExecutorRow>, data: seq<RequestData>, script: seq<bool>): seq<ExecutorRow> {
    seq(|rows|, i requires 0 <= i < |rows| => RecordAll(rows[i], data, script))
  }

  /** One datum: a result has a statement, which may fail; other data have none. */
  function RecordNext(rows: seq<ExecutorRow>, d: RequestData, script: seq<bool>): seq<ExecutorRow> {
    if d.ExecutorResult? && Passes(script, 0) then RecordRows(rows, d) else rows
  }

  function NextScript(d: RequestData, script: seq<bool>): seq<bool> {
    if d.ExecutorResult? then Drop(script, 1) else script
  }

  lemma RecordedNext(rows: seq<ExecutorRow>, data: seq<RequestData>, script: seq<bool>, i: nat)
    requires i < |data|
    ensures RecordedRows(rows, data[..i + 1], script)
         == RecordNext(RecordedRows(rows, data[..i], script), data[i], Drop(script, Statements(data[..i])))
    ensures Drop(script, Statements(data[..i + 1])) == NextScript(data[i], Drop(script, Statements(data[..i])))
  {
    assert data[..i + 1][..i] == data[..i];
    if !data[i].ExecutorResult? {
      assert forall row: ExecutorRow :: Record(row, data[i]) == row;
    }
  }

  /** script holds the outcomes of the coming statements. */
  class ExecutorTable {
    var rows: seq<ExecutorRow>
    var script: seq<bool>

    constructor ()
      ensures rows == [] && script == [] && Valid()
    {
      rows, script := [], [];
    }

    ghost predicate Valid()
      reads this
    {
      IdsIncrease(ExecutorIds(rows))
    }

    method Insert(computerId: int, startTime: int, name: string) returns (success: bool, lastId: nat)
      requires Valid()
      modifies this
      ensures Valid()
      ensures success == Passes(old(script), 0)
      ensures script == Drop(old(script), 1)
      ensures success ==> lastId == FreshId(ExecutorIds(old(rows))) && rows == old(rows) + [ExecutorRow(lastId, computerId, startTime, name, None)]
      ensures !success ==> rows == old(rows)
    {
      success := Passes(script, 0);
      script := Drop(script, 1);
      lastId := 0;
      if success {
        FreshIncreases(ExecutorIds(rows));
        lastId := FreshId(ExecutorIds(rows));
        rows := rows + [ExecutorRow(lastId, computerId, startTime, name, None)];
        assert ExecutorIds(rows) == ExecutorIds(old(rows)) + [lastId];
      }
    }

    /** RMS_DB_UPDATE_EXECUTOR_TABLE */
    method Finish(d: RequestData) returns (success: bool)
      requires Valid()
      modifies this
      ensures Valid()
      ensures success == Passes(old(script), 0)
      ensures script == Drop(old(script), 1)
      ensures rows == if success then RecordRows(old(rows), d) else old(rows)
      ensures |rows| == |old(rows)| && forall i :: 0 <= i < |rows| ==>
                if success && d.ExecutorResult? && old(rows)[i].id == d.id then HoldsResult(old(rows)[i], rows[i], d)
                else rows[i] == old(rows)[i]
    {
      success := Passes(script, 0);
      script := Drop(script, 1);
      if success {
        assert ExecutorIds(RecordRows(rows, d)) == ExecutorIds(rows);
        rows := RecordRows(rows, d);
      }
    }
  }
}
