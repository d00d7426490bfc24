/** usage_table: one row per day, usage type and id, with a column per hour of the
    day; and pushUsageToDB, which inserts the row if it is absent and then updates
    the hour's column. The table has no computer id: all computers share it. */
module UsageTables {
  import opened Wire
  import opened Scripts
  import opened Usage

  datatype Date = Date(year: int, month: int, day: int)

  /** A tick that is not in the map is NULL. */
  datatype UsageRow = UsageRow(date: Date, key: Key, ticks: map<int, real>)

  /** script: outcomes of the coming statements, as in the other tables. */
  datatype Table = Table(rows: seq<UsageRow>, script: seq<bool>)

  predicate Succeeds(t: Table) { Passes(t.script, 0) }

  function Spent(t: Table): Table {
    t.(script := Drop(t.script, 1))
  }

  // ---------- the statements ----------

  predicate Matches(r: UsageRow, date: Date, key: Key) { r.date == date && r.key == key }

  /** SELECT COUNT(*) ... WHERE date and data_type and data_id */
  function CountRows(rows: seq<UsageRow>, date: Date, key: Key): nat
    decreases |rows|
  {
    if rows == [] then 0
    else CountRows(rows[..|rows| - 1], date, key) + (if Matches(rows[|rows| - 1], date, key) then 1 else 0)
  }

  function Insert(rows: seq<UsageRow>, date: Date, key: Key): seq<UsageRow> {
    rows + [UsageRow(date, key, map[])]
  }

  /** UPDATE usage_table SET tick<tick>=value WHERE date and data_type and data_id */
  function SetTick(rows: seq<UsageRow>, date: Date, key: Key, tick: int, value: real): seq<UsageRow> {
    seq(|rows|, i requires 0 <= i < |rows| =>
      if Matches(rows[i], date, key) then rows[i].(ticks := rows[i].ticks[tick := value]) else rows[i])
  }

  /** The check and the insert. A failed SELECT returns no rows, which reads as absent. */
  function Ensure(t: Table, date: Date, key: Key): Table {
    if Succeeds(t) && CountRows(t.rows, date, key) > 0 then Spent(t)
    else if Succeeds(Spent(t)) then Spent(Spent(t)).(rows := Insert(t.rows, date, key))
    else Spent(Spent(t))
  }

  /** The update. nan and inf print as words that no statement accepts. */
  function UpdateCell(t: Table, date: Date, tick: int, key: Key, value: Double): Table {
    if Succeeds(t) && value.Fin? then Spent(t).(rows := SetTick(t.rows, date, key, tick, value.r)) else Spent(t)
  }

  /** One container's turn: check, insert if absent, update. */
  function PushOne(t: Table, date: Date, tick: int, key: Key, value: Double): Table {
    UpdateCell(Ensure(t, date, key), date, tick, key, value)
  }

  // ---------- at most one row per key ----------

  predicate UniqueRows(rows: seq<UsageRow>) {
    forall i, j :: 0 <= i < j < |rows| ==> !Matches(rows[i], rows[j].date, rows[j].key)
  }

  lemma {:induction false} CountPositive(rows: seq<UsageRow>, date: Date, key: Key)
    ensures CountRows(rows, date, key) > 0 <==> exists i :: 0 <= i < |rows| && Matches(rows[i], date, key)
    decreases |rows|
  {
    if rows != [] {
      var front := rows[..|rows| - 1];
      CountPositive(front, date, key);
      if i :| 0 <= i < |rows| && Matches(rows[i], date, key) {
        assert i < |front| ==> Matches(front[i], date, key);
      }
    }
  }

  lemma {:induction false} CountUnique(rows: seq<UsageRow>, date: Date, key: Key)
    requires UniqueRows(rows)
    ensures CountRows(rows, date, key) <= 1
    decreases |rows|
  {
    if rows != [] {
      var front, last := rows[..|rows| - 1], rows[|rows| - 1];
      CountUnique(front, date, key);
      CountPositive(front, date, key);
      if i :| 0 <= i < |front| && Matches(front[i], date, key) {
        assert !Matches(rows[i], last.date, last.key);
      }
    }
  }

  lemma SetTickUnique(rows: seq<UsageRow>, date: Date, key: Key, tick: int, value: real)
    ensures UniqueRows(SetTick(rows, date, key, tick, value)) <==> UniqueRows(rows)
    ensures CountRows(SetTick(rows, date, key, tick, value), date, key) == CountRows(rows, date, key)
  {
    var rows' := SetTick(rows, date, key, tick, value);
    assert forall i :: 0 <= i < |rows| ==> rows'[i].date == rows[i].date && rows'[i].key == rows[i].key;
    SameCount(rows, rows', date, key);
    if UniqueRows(rows') {
      forall i, j | 0 <= i < j < |rows| ensures !Matches(rows[i], rows[j].date, rows[j].key) {
        assert !Matches(rows'[i], rows'[j].date, rows'[j].key);
      }
    }
  }

  lemma {:induction false} SameCount(a: seq<UsageRow>, b: seq<UsageRow>, date: Date, key: Key)
    requires |a| == |b| && forall i :: 0 <= i < |a| ==> a[i].date == b[i].date && a[i].key == b[i].key
    ensures CountRows(a, date, key) == CountRows(b, date, key)
    decreases |a|
  {
    if a != [] {
      SameCount(a[..|a| - 1], b[..|b| - 1], date, key);
    }
  }

  lemma InsertUnique(rows: seq<UsageRow>, date: Date, key: Key)
    requires UniqueRows(rows)
    ensures UniqueRows(Insert(rows, date, key)) <==> CountRows(rows, date, key) == 0
    ensures CountRows(Insert(rows, date, key), date, key) == CountRows(rows, date, key) + 1
  {
    var rows' := Insert(rows, date, key);
    assert rows'[..|rows|] == rows;
    CountPositive(rows, date, key);
    if CountRows(rows, date, key) > 0 {
      var i :| 0 <= i < |rows| && Matches(rows[i], date, key);
      assert Matches(rows'[i], rows'[|rows|].date, rows'[|rows|].key);
    }
  }

  /** A push keeps rows unique, except in one case: the SELECT fails, the INSERT
      succeeds, and the row was there. */
  lemma PushKeepsUnique(t: Table, date: Date, tick: int, key: Key, value: Double)
    requires UniqueRows(t.rows)
    ensures UniqueRows(PushOne(t, date, tick, key, value).rows) <==>
            !(!Succeeds(t) && Succeeds(Spent(t)) && CountRows(t.rows, date, key) > 0)
  {
    var t1 := Ensure(t, date, key);
    InsertUnique(t.rows, date, key);
    if value.Fin? {
      SetTickUnique(t1.rows, date, key, tick, value.r);
    }
  }

  /** The failed SELECT, at the start of any table. */
  lemma FailedSelectDuplicates(r: UsageRow, tick: int, value: Double)
    ensures !UniqueRows(PushOne(Table([r], [false]), r.date, tick, r.key, value).rows)
  {
    var t := Table([r], [false]);
    CountPositive(t.rows, r.date, r.key);
    assert Matches(t.rows[0], r.date, r.key);
    PushKeepsUnique(t, r.date, tick, r.key, value);
  }

  /** With successful statements the update hits exactly one row, whatever the hour:
      also when the day changed since the last push. */
  lemma UpdateHitsOneRow(t: Table, date: Date, tick: int, key: Key, value: Double)
    requires UniqueRows(t.rows) && t.script == []
    ensures CountRows(Ensure(t, date, key).rows, date, key) == 1
    ensures CountRows(PushOne(t, date, tick, key, value).rows, date, key) == 1
  {
    var t1 := Ensure(t, date, key);
    CountUnique(t.rows, date, key);
    InsertUnique(t.rows, date, key);
    assert t1.script == [] && CountRows(t1.rows, date, key) == 1;
    if value.Fin? {
      SetTickUnique(t1.rows, date, key, tick, value.r);
    }
  }

  // ---------- the table as a last-writer map ----------

  /** The value stored for an hour, in the row with the key. */
  function Lookup(rows: seq<UsageRow>, date: Date, key: Key, tick: int): Option<real>
    decreases |rows|
  {
    if rows == [] then None
    else
      var last := rows[|rows| - 1];
      if Matches(last, date, key) then (if tick in last.ticks then Some(last.ticks[tick]) else None)
      else Lookup(rows[..|rows| - 1], date, key, tick)
  }

  lemma {:induction false} LookupSet(rows: seq<UsageRow>, date: Date, key: Key, tick: int, value: real,
                                     date': Date, key': Key, tick': int)
    requires CountRows(rows, date, key) == 1 && UniqueRows(rows)
    ensures Lookup(SetTick(rows, date, key, tick, value), date', key', tick') ==
            if date' == date && key' == key && tick' == tick then Some(value) else Lookup(rows, date', key', tick')
    decreases |rows|
  {
    var front, last := rows[..|rows| - 1], rows[|rows| - 1];
    var rows' := SetTick(rows, date, key, tick, value);
    assert rows'[..|rows| - 1] == SetTick(front, date, key, tick, value);
    if Matches(last, date, key) {
      NoneToSet(front, date, key, tick, value);
      if !Matches(last, date', key') {
        assert rows'[..|rows| - 1] == front;
      }
    } else {
      LookupSet(front, date, key, tick, value, date', key', tick');
    }
  }

  lemma NoneToSet(rows: seq<UsageRow>, date: Date, key: Key, tick: int, value: real)
    requires CountRows(rows, date, key) == 0
    ensures SetTick(rows, date, key, tick, value) == rows
  {
    CountPositive(rows, date, key);
    assert forall i :: 0 <= i < |rows| ==> !Matches(rows[i], date, key);
  }

  lemma {:induction false} LookupAbsent(rows: seq<UsageRow>, date: Date, key: Key, tick: int)
    requires CountRows(rows, date, key) == 0
    ensures Lookup(rows, date, key, tick) == None
    decreases |rows|
  {
    if rows != [] {
      LookupAbsent(rows[..|rows| - 1], date, key, tick);
    }
  }

  lemma LookupInsert(rows: seq<UsageRow>, date: Date, key: Key, date': Date, key': Key, tick': int)
    requires CountRows(rows, date, key) == 0
    ensures Lookup(Insert(rows, date, key), date', key', tick') == Lookup(rows, date', key', tick')
  {
    assert Insert(rows, date, key)[..|rows|] == rows;
    if date' == date && key' == key {
      LookupAbsent(rows, date, key, tick');
    }
  }

  /** One push writes one cell, or none if its value is not finite, and leaves every
      other cell of every row alone. */
  lemma PushWritesOneCell(t: Table, date: Date, tick: int, key: Key, value: Double, date': Date, key': Key, tick': int)
    requires UniqueRows(t.rows) && t.script == []
    ensures Lookup(PushOne(t, date, tick, key, value).rows, date', key', tick') ==
            if date' == date && key' == key && tick' == tick && value.Fin? then Some(value.r)
            else Lookup(t.rows, date', key', tick')
  {
    var t1 := Ensure(t, date, key);
    UpdateHitsOneRow(t, date, tick, key, value);
    InsertUnique(t.rows, date, key);
    if CountRows(t.rows, date, key) == 0 {
      LookupInsert(t.rows, date, key, date', key', tick');
    }
    if value.Fin? {
      LookupSet(t1.rows, date, key, tick, value.r, date', key', tick');
    }
  }

  /** The cell that Lookup reads: the hour's column of the row with the key. */
  lemma {:induction false} LookupIsCell(rows: seq<UsageRow>, date: Date, key: Key, tick: int, i: nat)
    requires UniqueRows(rows) && i < |rows| && rows[i].date == date && rows[i].key == key
    ensures Lookup(rows, date, key, tick) == if tick in rows[i].ticks then Some(rows[i].ticks[tick]) else None
    decreases |rows|
  {
    if i < |rows| - 1 {
      assert !Matches(rows[i], rows[|rows| - 1].date, rows[|rows| - 1].key);
      LookupIsCell(rows[..|rows| - 1], date, key, tick, i);
    }
  }

  /** Which of the coming statements is the update. */
  function UpdateTurn(t: Table, date: Date, key: Key): nat {
    if Passes(t.script, 0) && CountRows(t.rows, date, key) > 0 then 1 else 2
  }

  /** One push under any outcomes, but for the one that makes a second row: its cell is
      written exactly if the value is a number, the update succeeds, and the row was
      there or was inserted; no other cell changes. */
  lemma PushUnder(t: Table, date: Date, tick: int, key: Key, value: Double, date': Date, key': Key, tick': int)
    requires UniqueRows(t.rows) && (Passes(t.script, 0) || !Passes(t.script, 1) || CountRows(t.rows, date, key) == 0)
    ensures var there := CountRows(t.rows, date, key) > 0 || Passes(t.script, 1);
            Lookup(PushOne(t, date, tick, key, value).rows, date', key', tick') ==
            if date' == date && key' == key && tick' == tick && value.Fin? && there && Passes(t.script, UpdateTurn(t, date, key))
            then Some(value.r) else Lookup(t.rows, date', key', tick')
    ensures PushOne(t, date, tick, key, value).script == Drop(t.script, UpdateTurn(t, date, key) + 1)
  {
    var t1 := Ensure(t, date, key);
    CountUnique(t.rows, date, key);
    InsertUnique(t.rows, date, key);
    assert Succeeds(t1) == Passes(t.script, UpdateTurn(t, date, key));
    if CountRows(t.rows, date, key) == 0 && Passes(t.script, 1) {
      LookupInsert(t.rows, date, key, date', key', tick');
    }
    if value.Fin? && Succeeds(t1) {
      if CountRows(t1.rows, date, key) == 0 {
        NoneToSet(t1.rows, date, key, tick, value.r);
      } else {
        LookupSet(t1.rows, date, key, tick, value.r, date', key', tick');
      }
    }
  }

  datatype Write = Write(date: Date, tick: int, key: Key, value: Double)

  /** The pushes of all computers, in the order in which their statements run. */
  function PushAll(t: Table, writes: seq<Write>): Table
    decreases |writes|
  {
    if writes == [] then t
    else
      var w := writes[|writes| - 1];
      PushOne(PushAll(t, writes[..|writes| - 1]), w.date, w.tick, w.key, w.value)
  }

  function LastWriter(writes: seq<Write>, date: Date, key: Key, tick: int): Option<real>
    decreases |writes|
  {
    if writes == [] then None
    else
      var w := writes[|writes| - 1];
      if w.date == date && w.key == key && w.tick == tick && w.value.Fin? then Some(w.value.r)
      else LastWriter(writes[..|writes| - 1], date, key, tick)
  }

  predicate WritesCell(w: Write, date: Date, key: Key, tick: int) {
    w.date == date && w.key == key && w.tick == tick && w.value.Fin?
  }

  /** What the last writer wrote: the value of the last write for the cell. */
  lemma {:induction false} LastWriterIsLast(writes: seq<Write>, date: Date, key: Key, tick: int, k: nat)
    requires k < |writes| && WritesCell(writes[k], date, key, tick)
    requires forall j :: k < j < |writes| ==> !WritesCell(writes[j], date, key, tick)
    ensures LastWriter(writes, date, key, tick) == Some(writes[k].value.r)
    decreases |writes|
  {
    if k < |writes| - 1 {
      assert !WritesCell(writes[|writes| - 1], date, key, tick);
      LastWriterIsLast(writes[..|writes| - 1], date, key, tick, k);
    }
  }

  /** And nothing, if there is none. */
  lemma {:induction false} NoWriter(writes: seq<Write>, date: Date, key: Key, tick: int)
    requires forall j :: 0 <= j < |writes| ==> !WritesCell(writes[j], date, key, tick)
    ensures LastWriter(writes, date, key, tick) == None
    decreases |writes|
  {
    if writes != [] {
      assert !WritesCell(writes[|writes| - 1], date, key, tick);
      NoWriter(writes[..|writes| - 1], date, key, tick);
    }
  }

  /** Over any run of pushes from an empty table, with successful statements: unique
      rows, and every cell holds what its last writer wrote. */
  lemma {:induction false} TableIsLastWriter(writes: seq<Write>, date: Date, key: Key, tick: int)
    ensures var t := PushAll(Table([], []), writes);
            t.script == [] && UniqueRows(t.rows) && Lookup(t.rows, date, key, tick) == LastWriter(writes, date, key, tick)
    decreases |writes|
  {
    if writes != [] {
      var front, w := writes[..|writes| - 1], writes[|writes| - 1];
      TableIsLastWriter(front, date, key, tick);
      var t := PushAll(Table([], []), front);
      PushKeepsUnique(t, w.date, w.tick, w.key, w.value);
      PushWritesOneCell(t, w.date, w.tick, w.key, w.value, date, key, tick);
    }
  }

  /** Pushing the containers of one computer, then those of the next, is one longer run. */
  lemma {:induction false} PushAllConcat(t: Table, a: seq<Write>, b: seq<Write>)
    ensures PushAll(PushAll(t, a), b) == PushAll(t, a + b)
    decreases |b|
  {
    if b == [] {
      assert a + b == a;
    } else {
      assert (a + b)[..|a + b| - 1] == a + b[..|b| - 1];
      PushAllConcat(t, a, b[..|b| - 1]);
    }
  }

  // ---------- bounded values ----------

  predicate TicksWithin(rows: seq<UsageRow>, low: real, high: real) {
    forall i, tick :: 0 <= i < |rows| && tick in rows[i].ticks ==> low <= rows[i].ticks[tick] <= high
  }

  lemma PushWithin(t: Table, date: Date, tick: int, key: Key, value: Double, low: real, high: real)
    requires TicksWithin(t.rows, low, high) && (value.Fin? ==> low <= value.r <= high)
    ensures TicksWithin(PushOne(t, date, tick, key, value).rows, low, high)
  {
  }

  // ---------- the method ----------

  class UsageTable {
    var table: Table

    constructor ()
      ensures table == Table([], [])
    {
      table := Table([], []);
    }

    /** One statement: does it succeed? */
    method Execute() returns (success: bool)
      modifies this
      ensures success == Succeeds(old(table)) && table == Spent(old(table))
    {
      success := Passes(table.script, 0);
      table := table.(script := Drop(table.script, 1));
    }
  }

  /** What the containers contribute to one push, in their order. */
  ghost function Contributions(containers: seq<UsageContainer>, date: Date, tick: int): (ws: seq<Write>)
    reads containers
  {
    seq(|containers|, i requires 0 <= i < |containers| reads containers =>
      Write(date, tick, containers[i].KeyOf(), Average(containers[i].dataPoints)))
  }

  /** One write for each key, of the average of the window of its points. */
  function WritesAt(history: seq<Point>, date: Date, tick: int): (ws: seq<Write>) {
    seq(|KeysOf(history)|, i requires 0 <= i < |KeysOf(history)| =>
      Write(date, tick, KeysOf(history)[i], Average(Window(Of(history, KeysOf(history)[i])))))
  }

  /** Every point's key has its write, and no key has two. */
  lemma EveryKeyIsWritten(history: seq<Point>, date: Date, tick: int)
    ensures var ws := WritesAt(history, date, tick);
            && (forall i, j :: 0 <= i < j < |ws| ==> ws[i].key != ws[j].key)
            && forall p <- history :: exists w <- ws :: w.key == p.key
  {
    KeysDistinct(history);
    forall p | p in history ensures exists w <- WritesAt(history, date, tick) :: w.key == p.key {
      PointHasKey(history, p);
      var i :| 0 <= i < |KeysOf(history)| && KeysOf(history)[i] == p.key;
      assert WritesAt(history, date, tick)[i].key == p.key;
    }
  }

  lemma {:induction false} KeysDistinct(history: seq<Point>)
    ensures forall i, j :: 0 <= i < j < |KeysOf(history)| ==> KeysOf(history)[i] != KeysOf(history)[j]
    decreases |history|
  {
    if history != [] {
      KeysDistinct(history[..|history| - 1]);
    }
  }

  lemma {:induction false} PointHasKey(history: seq<Point>, p: Point)
    requires p in history
    ensures p.key in KeysOf(history)
    decreases |history|
  {
    if history[|history| - 1] != p {
      PointHasKey(history[..|history| - 1], p);
    }
  }

  /** v is a number exactly if all points are, and then their mean. */
  predicate IsMean(v: Double, points: seq<Double>) {
    && (v.Fin? <==> points != [] && forall k :: 0 <= k < |points| ==> points[k].Fin?)
    && (v.Fin? ==> Sum(points).Fin? && v.r * (|points| as real) == Sum(points).r)
  }

  lemma AverageOf(points: seq<Double>)
    ensures IsMean(Average(points), points)
  {
    AverageIsMean(points);
    FiniteSum(points);
  }

  lemma WindowMean(points: seq<Double>)
    ensures IsMean(Average(Window(points)), LastN(points, 61))
  {
    WindowIsLast61(points);
    AverageOf(Window(points));
  }

  /** Each write is for this day and hour, and holds the mean of the last 61 points with
      its key. */
  lemma WriteIsMean(history: seq<Point>, date: Date, tick: int, i: nat)
    requires i < |KeysOf(history)|
    ensures WritesAt(history, date, tick)[i].date == date && WritesAt(history, date, tick)[i].tick == tick
    ensures WritesAt(history, date, tick)[i].key == KeysOf(history)[i]
    ensures IsMean(WritesAt(history, date, tick)[i].value, LastN(Of(history, KeysOf(history)[i]), 61))
  {
    WindowMean(Of(history, KeysOf(history)[i]));
  }

  lemma ContributionsAre(info: UsageInfo, date: Date, tick: int)
    requires info.Valid()
    ensures Contributions(info.containers, date, tick) == WritesAt(info.history, date, tick)
  {
    forall i | 0 <= i < |info.containers|
      ensures Contributions(info.containers, date, tick)[i] == WritesAt(info.history, date, tick)[i]
    {
      assert Filled(info.containers[i], info.history);
    }
  }

  /** No container has tableExist (UsageInfo.Valid), so the check precedes every update,
      at every hour. */
  method PushUsageToDB(info: UsageInfo, table: UsageTable, date: Date, tick: int)
    requires info.Valid() && table !in info.Repr
    modifies table
    ensures table.table == PushAll(old(table.table), WritesAt(info.history, date, tick))
  {
    assert forall k :: 0 <= k < |info.containers| ==> Filled(info.containers[k], info.history);
    ContributionsAre(info, date, tick);
    PushContainers(info.containers, table, date, tick);
  }

  /** The loop of pushUsageToDB over its containers, which all average. */
  method PushContainers(containers: seq<UsageContainer>, table: UsageTable, date: Date, tick: int)
    requires forall k :: 0 <= k < |containers| ==> !containers[k].culminating && !containers[k].tableExist
    modifies table
    ensures table.table == PushAll(old(table.table), old(Contributions(containers, date, tick)))
  {
    ghost var ws := Contributions(containers, date, tick);
    for i := 0 to |containers|
      invariant table.table == PushAll(old(table.table), ws[..i])
    {
      var c := containers[i];
      var value := c.GetData();
      assert ws[..i + 1] == ws[..i] + [ws[i]];
      PushContainer(table, date, tick, Key(c.usageType, c.id), c.tableExist, value);
    }
    assert ws[..|containers|] == ws;
  }

  /** The check and the insert are skipped for a container known to have its row,
      except at the first hour of the day. */
  method PushContainer(table: UsageTable, date: Date, tick: int, key: Key, tableExist: bool, value: Double)
    modifies table
    ensures !tableExist || tick == 0 ==> table.table == PushOne(old(table.table), date, tick, key, value)
    ensures tableExist && tick != 0 ==> table.table == UpdateCell(old(table.table), date, tick, key, value)
  {
    if !tableExist || tick == 0 {
      var rows := table.table.rows;
      var success := table.Execute();
      if !success || CountRows(rows, date, key) == 0 {
        success := table.Execute();
        if success {
          table.table := table.table.(rows := Insert(table.table.rows, date, key));
        }
      }
      assert table.table == Ensure(old(table.table), date, key);
    }
    var success := table.Execute();
    if success && value.Fin? {
      table.table := table.table.(rows := SetTick(table.table.rows, date, key, tick, value.r));
    }
  }
}
