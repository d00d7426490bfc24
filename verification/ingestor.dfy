/** DbRequestIngestor: every datum of a request goes to the windows or to the executor
    table, and then may trigger the hourly push. One ingest call is atomic. */
module Ingestors {
  import opened Wire
  import opened Scripts
  import opened Usage
  import opened UsageTables
  import opened ExecutorTables
  import opened Schedulers

  /** The points that a datum adds, in order. */
  function PointsOf(data: RequestData): seq<Point> {
    match data
    case CpuUsage(usage) => CpuPoints(usage)
    case RamUsage(ram) =>
      [Point(Key(Ram, 0), Percent(ram.mainTotal - ram.mainFree, ram.mainTotal))]
      + (if ram.swapTotal != 0 then [Point(Key(Ram, 1), Percent(ram.swapTotal - ram.swapFree, ram.swapTotal))] else [])
    case _ => []
  }

  function CpuPoints(usage: seq<Double>): seq<Point> {
    seq(|usage|, i requires 0 <= i < |usage| => Point(Key(Cpu, i), usage[i]))
  }

  /** What one datum adds, value by value and key by key. */
  predicate Routed(data: RequestData, added: seq<Point>) {
    match data
    case CpuUsage(usage) => |added| == |usage| && forall i :: 0 <= i < |usage| ==> added[i] == Point(Key(Cpu, i), usage[i])
    case RamUsage(ram) =>
      && |added| == (if ram.swapTotal != 0 then 2 else 1)
      && added[0].key == Key(Ram, 0) && IsShare(added[0].value, ram.mainTotal - ram.mainFree, ram.mainTotal)
      && (ram.swapTotal != 0 ==>
            added[1].key == Key(Ram, 1) && added[1].value.Fin?
            && added[1].value.r * (ram.swapTotal as real) == 100.0 * ((ram.swapTotal - ram.swapFree) as real))
    case NetworkUsage => added == []
    case ExecutorResult(_, _, _, _) => added == []
    case Ping => added == []
  }

  /** CPU entry i goes to (Cpu, i), and the used shares of RAM and swap to (Ram, 0) and
      (Ram, 1). */
  lemma PointsRouted(data: RequestData)
    ensures Routed(data, PointsOf(data))
  {
    if data.RamUsage? {
      PercentIsShare(data.ram.mainTotal - data.ram.mainFree, data.ram.mainTotal);
      PercentIsShare(data.ram.swapTotal - data.ram.swapFree, data.ram.swapTotal);
    }
  }

  // ---------- percentages ----------

  predicate RamOk(total: int, free: int) { 0 <= free <= total && total > 0 }

  /** What a reporter with monotone CPU counters sends (CpuReporters.ShareWithin), and
      a RAM reading with 0 <= free <= total and something in total. */
  predicate DataOk(data: RequestData) {
    match data
    case CpuUsage(usage) => AllWithin(usage, 0.0, 100.0)
    case RamUsage(ram) =>
      RamOk(ram.mainTotal, ram.mainFree) && (ram.swapTotal != 0 ==> RamOk(ram.swapTotal, ram.swapFree))
    case _ => true
  }

  predicate PointsWithin(ps: seq<Point>) {
    forall i :: 0 <= i < |ps| ==> Within(ps[i].value, 0.0, 100.0)
  }

  lemma GoodDataGoodPoints(data: RequestData)
    requires DataOk(data)
    ensures PointsWithin(PointsOf(data))
  {
    if data.RamUsage? {
      PercentWithin(data.ram.mainTotal - data.ram.mainFree, data.ram.mainTotal);
      if data.ram.swapTotal != 0 {
        PercentWithin(data.ram.swapTotal - data.ram.swapFree, data.ram.swapTotal);
      }
    }
  }

  lemma {:induction false} OfWithin(history: seq<Point>, key: Key)
    requires PointsWithin(history)
    ensures AllWithin(Usage.Of(history, key), 0.0, 100.0)
    decreases |history|
  {
    if history != [] {
      OfWithin(history[..|history| - 1], key);
    }
  }

  /** Percentages in, percentages out: every window average is one. */
  lemma AveragesWithin(history: seq<Point>, date: Date, tick: int)
    requires PointsWithin(history)
    ensures forall w <- WritesAt(history, date, tick) :: Within(w.value, 0.0, 100.0)
  {
    forall i | 0 <= i < |KeysOf(history)| ensures Within(WritesAt(history, date, tick)[i].value, 0.0, 100.0) {
      var points := Usage.Of(history, KeysOf(history)[i]);
      KeyHasPoints(history, KeysOf(history)[i]);
      OfWithin(history, KeysOf(history)[i]);
      WindowWithin(points, 0.0, 100.0);
      WindowIsLast61(points);
      AverageBetween(Window(points), 0.0, 100.0);
    }
  }

  lemma {:induction false} KeyHasPoints(history: seq<Point>, key: Key)
    requires key in KeysOf(history)
    ensures Usage.Of(history, key) != []
    decreases |history|
  {
    if history[|history| - 1].key != key {
      KeyHasPoints(history[..|history| - 1], key);
    }
  }

  lemma {:induction false} PushAllWithin(t: Table, ws: seq<Write>)
    requires TicksWithin(t.rows, 0.0, 100.0) && forall w <- ws :: Within(w.value, 0.0, 100.0)
    ensures TicksWithin(PushAll(t, ws).rows, 0.0, 100.0)
    decreases |ws|
  {
    if ws != [] {
      var w := ws[|ws| - 1];
      PushAllWithin(t, ws[..|ws| - 1]);
      assert w in ws;
      PushWithin(PushAll(t, ws[..|ws| - 1]), w.date, w.tick, w.key, w.value, 0.0, 100.0);
    }
  }

  // ---------- the class ----------

  /** tick is -1 until the first push. */
  class DbRequestIngestor {
    var tick: int
    var nextUsagePush: int

    constructor (now: int)
      ensures Schedule() == Boot(now)
    {
      tick, nextUsagePush := -1, now + FIVE_MINUTES;
    }

    function Schedule(): Scheduler
      reads this
    {
      Scheduler(tick, nextUsagePush)
    }

    /** now, hour and date are the clocks read during the call. */
    method IngestRequestData(data: RequestData, info: UsageInfo, executors: ExecutorTable, table: UsageTable,
                             now: int, hour: nat, date: Date)
      requires info.Valid() && executors.Valid()
      requires this !in info.Repr && executors !in info.Repr && table !in info.Repr
      modifies this, info.Repr, executors, table
      ensures info.Valid() && fresh(info.Repr - old(info.Repr)) && executors.Valid()
      ensures info.history == old(info.history) + PointsOf(data)
      ensures old(info.history) <= info.history && Routed(data, info.history[|old(info.history)|..])
      ensures executors.rows == RecordNext(old(executors.rows), data, old(executors.script))
      ensures executors.script == NextScript(data, old(executors.script))
      ensures var s, d := old(Schedule()), Datum(now, hour);
              && Schedule() == Step(s, d)
              && table.table == if Due(s, d) then PushAll(old(table.table), WritesAt(info.history, date, TickOf(s, d)))
                                else old(table.table)
    {
      Route(data, info, executors);
      PointsRouted(data);
      assert info.history[|old(info.history)|..] == PointsOf(data);
      PushIfDue(info, table, now, hour, date);
    }

    /** The part of ingestRequestData after the switch. */
    method PushIfDue(info: UsageInfo, table: UsageTable, now: int, hour: nat, date: Date)
      requires info.Valid() && this !in info.Repr && table !in info.Repr
      modifies this, table
      ensures var s, d := old(Schedule()), Datum(now, hour);
              && Schedule() == Step(s, d)
              && table.table == if Due(s, d) then PushAll(old(table.table), WritesAt(info.history, date, TickOf(s, d)))
                                else old(table.table)
    {
      if now > nextUsagePush {
        if tick == -1 {
          tick := hour;
        }
        PushUsageToDB(info, table, date, tick);
        tick := if tick == 23 then 0 else tick + 1;
        nextUsagePush := nextUsagePush + HOUR;
      }
    }
  }

  datatype Clock = Clock(now: int, hour: nat, date: Date)

  function AllPoints(data: seq<RequestData>): seq<Point>
    decreases |data|
  {
    if data == [] then [] else AllPoints(data[..|data| - 1]) + PointsOf(data[|data| - 1])
  }

  function AllSteps(s: Scheduler, clocks: seq<Clock>): Scheduler
    decreases |clocks|
  {
    if clocks == [] then s
    else
      var c := clocks[|clocks| - 1];
      Step(AllSteps(s, clocks[..|clocks| - 1]), Datum(c.now, c.hour))
  }

  /** What one datum pushes, if a deadline has passed: the averages of all points up to
      and with its own. */
  function WritesOf(history: seq<Point>, c: Clock, s: Scheduler): seq<Write> {
    var d := Datum(c.now, c.hour);
    if Due(s, d) then WritesAt(history, c.date, TickOf(s, d)) else []
  }

  /** What the data of a request push, after the points of history. */
  function AllWrites(history: seq<Point>, data: seq<RequestData>, clocks: seq<Clock>, s: Scheduler): seq<Write>
    requires |data| == |clocks|
    decreases |data|
  {
    if data == [] then []
    else
      var last := |data| - 1;
      AllWrites(history, data[..last], clocks[..last], s)
      + WritesOf(history + AllPoints(data), clocks[last], AllSteps(s, clocks[..last]))
  }

  lemma OneMore(data: seq<RequestData>, clocks: seq<Clock>, i: nat, history: seq<Point>, s: Scheduler)
    requires i < |data| == |clocks|
    ensures AllWrites(history, data[..i + 1], clocks[..i + 1], s)
         == AllWrites(history, data[..i], clocks[..i], s)
            + WritesOf(history + AllPoints(data[..i + 1]), clocks[i], AllSteps(s, clocks[..i]))
    ensures history + AllPoints(data[..i + 1]) == history + AllPoints(data[..i]) + PointsOf(data[i])
    ensures AllSteps(s, clocks[..i + 1]) == Step(AllSteps(s, clocks[..i]), Datum(clocks[i].now, clocks[i].hour))
  {
    assert data[..i + 1][..i] == data[..i] && clocks[..i + 1][..i] == clocks[..i];
  }

  /** Every window point and every stored tick is a percentage. */
  ghost predicate Percentages(info: UsageInfo, table: UsageTable)
    reads info, table
  {
    PointsWithin(info.history) && TicksWithin(table.table.rows, 0.0, 100.0)
  }

  /** ingestRequest: the data in order, each with the clocks read at its turn. As long
      as percentages come in, percentages are kept. */
  method IngestRequest(ingestor: DbRequestIngestor, data: seq<RequestData>, clocks: seq<Clock>,
                       info: UsageInfo, executors: ExecutorTable, table: UsageTable)
    requires info.Valid() && executors.Valid() && |clocks| == |data|
    requires ingestor !in info.Repr && executors !in info.Repr && table !in info.Repr
    modifies ingestor, info.Repr, executors, table
    ensures info.Valid() && fresh(info.Repr - old(info.Repr)) && executors.Valid()
    ensures info.history == old(info.history) + AllPoints(data)
    ensures ingestor.Schedule() == AllSteps(old(ingestor.Schedule()), clocks)
    ensures executors.rows == RecordedRows(old(executors.rows), data, old(executors.script))
    ensures executors.script == Drop(old(executors.script), Statements(data))
    ensures table.table == PushAll(old(table.table), AllWrites(old(info.history), data, clocks, old(ingestor.Schedule())))
    ensures (forall d <- data :: DataOk(d)) && old(Percentages(info, table)) ==> Percentages(info, table)
  {
    for i := 0 to |data|
      invariant info.Valid() && fresh(info.Repr - old(info.Repr)) && executors.Valid()
      invariant info.history == old(info.history) + AllPoints(data[..i])
      invariant ingestor.Schedule() == AllSteps(old(ingestor.Schedule()), clocks[..i])
      invariant executors.rows == RecordedRows(old(executors.rows), data[..i], old(executors.script))
      invariant executors.script == Drop(old(executors.script), Statements(data[..i]))
      invariant table.table == PushAll(old(table.table), AllWrites(old(info.history), data[..i], clocks[..i], old(ingestor.Schedule())))
      invariant (forall d <- data :: DataOk(d)) && old(Percentages(info, table)) ==> Percentages(info, table)
    {
      assert data[i] in data;
      OneMore(data, clocks, i, old(info.history), old(ingestor.Schedule()));
      RecordedNext(old(executors.rows), data, old(executors.script), i);
      PushAllConcat(old(table.table), AllWrites(old(info.history), data[..i], clocks[..i], old(ingestor.Schedule())),
                    WritesOf(old(info.history) + AllPoints(data[..i + 1]), clocks[i], AllSteps(old(ingestor.Schedule()), clocks[..i])));
      IngestDatum(ingestor, data[i], clocks[i], info, executors, table);
    }
    assert data[..|data|] == data && clocks[..|clocks|] == clocks;
  }

  // ---------- several computers ----------

  /** One request of one of the computers. All share the ingestor and the table. */
  datatype Turn = Turn(computer: nat, data: seq<RequestData>, clocks: seq<Clock>)

  predicate TurnsOk(turns: seq<Turn>) {
    forall k :: 0 <= k < |turns| ==> |turns[k].data| == |turns[k].clocks|
  }

  /** The points of one computer. */
  function HistoryOf(turns: seq<Turn>, computer: nat): seq<Point>
    decreases |turns|
  {
    if turns == [] then []
    else
      var last := turns[|turns| - 1];
      HistoryOf(turns[..|turns| - 1], computer) + (if last.computer == computer then AllPoints(last.data) else [])
  }

  function ScheduleAfter(boot: Scheduler, turns: seq<Turn>): Scheduler
    decreases |turns|
  {
    if turns == [] then boot else AllSteps(ScheduleAfter(boot, turns[..|turns| - 1]), turns[|turns| - 1].clocks)
  }

  /** The usage table after the turns, each as IngestRequest leaves it. */
  function TableAfterTurns(boot: Scheduler, turns: seq<Turn>): Table
    requires TurnsOk(turns)
    decreases |turns|
  {
    if turns == [] then Table([], [])
    else
      var front, last := turns[..|turns| - 1], turns[|turns| - 1];
      PushAll(TableAfterTurns(boot, front), AllWrites(HistoryOf(front, last.computer), last.data, last.clocks, ScheduleAfter(boot, front)))
  }

  function WritesOfTurns(boot: Scheduler, turns: seq<Turn>): seq<Write>
    requires TurnsOk(turns)
    decreases |turns|
  {
    if turns == [] then []
    else
      var front, last := turns[..|turns| - 1], turns[|turns| - 1];
      WritesOfTurns(boot, front) + AllWrites(HistoryOf(front, last.computer), last.data, last.clocks, ScheduleAfter(boot, front))
  }

  /** The computers' windows are apart from each other and from the shared objects. */
  ghost predicate Apart(infos: seq<UsageInfo>, ingestor: DbRequestIngestor, executors: ExecutorTable, table: UsageTable)
    reads set k | 0 <= k < |infos| :: infos[k], set o, k | 0 <= k < |infos| && o in infos[k].Repr :: o
  {
    && (forall k :: 0 <= k < |infos| ==> infos[k].Valid())
    && (forall k :: 0 <= k < |infos| ==>
          ingestor !in infos[k].Repr && executors !in infos[k].Repr && table !in infos[k].Repr)
    && (forall j, k :: 0 <= j < k < |infos| ==> infos[j].Repr !! infos[k].Repr)
  }

  /** One request of one of the computers. The others are not touched. */
  method IngestTurn(ingestor: DbRequestIngestor, turn: Turn, infos: seq<UsageInfo>, executors: ExecutorTable, table: UsageTable)
    requires |turn.data| == |turn.clocks| && turn.computer < |infos|
    requires executors.Valid() && Apart(infos, ingestor, executors, table)
    modifies ingestor, executors, table, infos[turn.computer].Repr
    ensures executors.Valid() && Apart(infos, ingestor, executors, table)
    ensures fresh(infos[turn.computer].Repr - old(infos[turn.computer].Repr))
    ensures infos[turn.computer].history == old(infos[turn.computer].history) + AllPoints(turn.data)
    ensures forall k :: 0 <= k < |infos| && k != turn.computer ==>
              infos[k].history == old(infos[k].history) && infos[k].Repr == old(infos[k].Repr)
    ensures ingestor.Schedule() == AllSteps(old(ingestor.Schedule()), turn.clocks)
    ensures table.table == PushAll(old(table.table),
              AllWrites(old(infos[turn.computer].history), turn.data, turn.clocks, old(ingestor.Schedule())))
  {
    ghost var c := turn.computer;
    forall k | 0 <= k < |infos| && k != c ensures infos[k].Repr !! infos[c].Repr {
      if k < c {
        assert infos[k].Repr !! infos[c].Repr;
      } else {
        assert infos[c].Repr !! infos[k].Repr;
      }
    }
    IngestRequest(ingestor, turn.data, turn.clocks, infos[turn.computer], executors, table);
  }

  lemma OneMoreTurn(boot: Scheduler, turns: seq<Turn>, i: nat, c: nat)
    requires TurnsOk(turns) && i < |turns|
    ensures HistoryOf(turns[..i + 1], c) == if turns[i].computer == c then HistoryOf(turns[..i], c) + AllPoints(turns[i].data) else HistoryOf(turns[..i], c)
    ensures ScheduleAfter(boot, turns[..i + 1]) == AllSteps(ScheduleAfter(boot, turns[..i]), turns[i].clocks)
    ensures TableAfterTurns(boot, turns[..i + 1]) == PushAll(TableAfterTurns(boot, turns[..i]),
              AllWrites(HistoryOf(turns[..i], turns[i].computer), turns[i].data, turns[i].clocks, ScheduleAfter(boot, turns[..i])))
  {
    assert turns[..i + 1][..i] == turns[..i];
  }

  /** What the first i turns have left in the objects. */
  ghost predicate AfterTurns(boot: Scheduler, turns: seq<Turn>, i: nat, ingestor: DbRequestIngestor, infos: seq<UsageInfo>, table: UsageTable)
    requires i <= |turns| && TurnsOk(turns)
    reads ingestor, table, set k | 0 <= k < |infos| :: infos[k]
  {
    && (forall c :: 0 <= c < |infos| ==> infos[c].history == HistoryOf(turns[..i], c))
    && ingestor.Schedule() == ScheduleAfter(boot, turns[..i])
    && table.table == TableAfterTurns(boot, turns[..i])
  }

  method IngestNext(ghost boot: Scheduler, turns: seq<Turn>, i: nat, ingestor: DbRequestIngestor, infos: seq<UsageInfo>,
                    executors: ExecutorTable, table: UsageTable)
    requires TurnsOk(turns) && i < |turns| && turns[i].computer < |infos|
    requires executors.Valid() && Apart(infos, ingestor, executors, table) && AfterTurns(boot, turns, i, ingestor, infos, table)
    modifies ingestor, executors, table, infos[turns[i].computer].Repr
    ensures executors.Valid() && Apart(infos, ingestor, executors, table) && AfterTurns(boot, turns, i + 1, ingestor, infos, table)
    ensures forall k :: 0 <= k < |infos| ==> fresh(infos[k].Repr - old(infos[k].Repr))
  {
    forall c | 0 <= c < |infos|
      ensures HistoryOf(turns[..i + 1], c) == if turns[i].computer == c then HistoryOf(turns[..i], c) + AllPoints(turns[i].data) else HistoryOf(turns[..i], c)
    {
      OneMoreTurn(boot, turns, i, c);
    }
    OneMoreTurn(boot, turns, i, 0);
    IngestTurn(ingestor, turns[i], infos, executors, table);
  }

  /** The requests of the computers, one after the other. */
  method IngestTurns(ingestor: DbRequestIngestor, turns: seq<Turn>, infos: seq<UsageInfo>, executors: ExecutorTable, table: UsageTable)
    requires TurnsOk(turns) && forall k :: 0 <= k < |turns| ==> turns[k].computer < |infos|
    requires executors.Valid() && Apart(infos, ingestor, executors, table)
    requires table.table == Table([], []) && forall k :: 0 <= k < |infos| ==> infos[k].history == []
    modifies ingestor, executors, table, set o, k | 0 <= k < |infos| && o in infos[k].Repr :: o
    ensures executors.Valid() && Apart(infos, ingestor, executors, table)
    ensures AfterTurns(old(ingestor.Schedule()), turns, |turns|, ingestor, infos, table)
  {
    ghost var boot := ingestor.Schedule();
    for i := 0 to |turns|
      invariant executors.Valid() && Apart(infos, ingestor, executors, table)
      invariant forall k :: 0 <= k < |infos| ==> fresh(infos[k].Repr - old(infos[k].Repr))
      invariant AfterTurns(boot, turns, i, ingestor, infos, table)
    {
      IngestNext(boot, turns, i, ingestor, infos, executors, table);
    }
  }

  lemma {:induction false} TurnsAreOneRun(boot: Scheduler, turns: seq<Turn>)
    requires TurnsOk(turns)
    ensures TableAfterTurns(boot, turns) == PushAll(Table([], []), WritesOfTurns(boot, turns))
    decreases |turns|
  {
    if turns != [] {
      var front, last := turns[..|turns| - 1], turns[|turns| - 1];
      TurnsAreOneRun(boot, front);
      PushAllConcat(Table([], []), WritesOfTurns(boot, front), AllWrites(HistoryOf(front, last.computer), last.data, last.clocks, ScheduleAfter(boot, front)));
    }
  }

  /** Any requests of any computers, in any order, from an empty table and with
      successful statements: one row per day, type and id, and each cell holds what the
      last push of any computer for it wrote, the average of that computer's window. */
  lemma IngestedIsLastWriter(boot: Scheduler, turns: seq<Turn>, date: Date, key: Key, tick: int)
    requires TurnsOk(turns)
    ensures UniqueRows(TableAfterTurns(boot, turns).rows)
    ensures Lookup(TableAfterTurns(boot, turns).rows, date, key, tick) == LastWriter(WritesOfTurns(boot, turns), date, key, tick)
  {
    TurnsAreOneRun(boot, turns);
    TableIsLastWriter(WritesOfTurns(boot, turns), date, key, tick);
  }

  method IngestDatum(ingestor: DbRequestIngestor, data: RequestData, c: Clock,
                     info: UsageInfo, executors: ExecutorTable, table: UsageTable)
    requires info.Valid() && executors.Valid()
    requires ingestor !in info.Repr && executors !in info.Repr && table !in info.Repr
    modifies ingestor, info.Repr, executors, table
    ensures info.Valid() && fresh(info.Repr - old(info.Repr)) && executors.Valid()
    ensures info.history == old(info.history) + PointsOf(data)
    ensures ingestor.Schedule() == Step(old(ingestor.Schedule()), Datum(c.now, c.hour))
    ensures executors.rows == RecordNext(old(executors.rows), data, old(executors.script))
    ensures executors.script == NextScript(data, old(executors.script))
    ensures table.table == PushAll(old(table.table), WritesOf(info.history, c, old(ingestor.Schedule())))
    ensures DataOk(data) && old(Percentages(info, table)) ==> Percentages(info, table)
  {
    ghost var good := DataOk(data) && Percentages(info, table);
    ghost var before, tick := table.table, TickOf(ingestor.Schedule(), Datum(c.now, c.hour));
    ingestor.IngestRequestData(data, info, executors, table, c.now, c.hour, c.date);
    if good {
      GoodDataGoodPoints(data);
      AveragesWithin(info.history, c.date, tick);
      PushAllWithin(before, WritesAt(info.history, c.date, tick));
    }
  }

  method Route(data: RequestData, info: UsageInfo, executors: ExecutorTable)
    requires info.Valid() && executors.Valid() && executors !in info.Repr
    modifies info.Repr, executors
    ensures info.Valid() && fresh(info.Repr - old(info.Repr)) && executors.Valid()
    ensures info.history == old(info.history) + PointsOf(data)
    ensures executors.rows == RecordNext(old(executors.rows), data, old(executors.script))
    ensures executors.script == NextScript(data, old(executors.script))
  {
    assert info.history + [] == info.history;
    match data
    case CpuUsage(usage) => AddCpu(info, usage);
    case RamUsage(ram) => AddRam(info, ram);
    case ExecutorResult(_, _, _, _) => var _ := executors.Finish(data);
    case _ =>
  }

  method AddCpu(info: UsageInfo, usage: seq<Double>)
    requires info.Valid()
    modifies info.Repr
    ensures info.Valid() && fresh(info.Repr - old(info.Repr)) && info.history == old(info.history) + CpuPoints(usage)
  {
    for i := 0 to |usage|
      invariant info.Valid() && fresh(info.Repr - old(info.Repr))
      invariant info.history == old(info.history) + CpuPoints(usage[..i])
    {
      info.AddUsageInfo(Cpu, usage[i], i);
      assert CpuPoints(usage[..i + 1]) == CpuPoints(usage[..i]) + [Point(Key(Cpu, i), usage[i])];
    }
    assert usage[..|usage|] == usage;
  }

  method AddRam(info: UsageInfo, ram: RamData)
    requires info.Valid()
    modifies info.Repr
    ensures info.Valid() && fresh(info.Repr - old(info.Repr)) && info.history == old(info.history) + PointsOf(RamUsage(ram))
  {
    info.AddUsageInfo(Ram, Percent(ram.mainTotal - ram.mainFree, ram.mainTotal), 0);
    if ram.swapTotal != 0 {
      info.AddUsageInfo(Ram, Percent(ram.swapTotal - ram.swapFree, ram.swapTotal), 1);
    }
  }
}
