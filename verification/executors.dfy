/** What the ingest log makes of the executor table: redelivery does not show, and a
    row is finished once. */
module Executors {
  import opened Wire
  import opened Sequences
  import opened Scripts
  import opened DeliveryMachine
  import opened DeliveryInvariant
  import opened DeliveryExecutors
  import opened Delivery
  import opened ExecutorTables

  /** One ingest of a request: what was sent, and the outcomes of its statements. */
  datatype Ingest = Ingest(entry: Entry, script: seq<bool>)

  function EntriesOf(log: seq<Ingest>): seq<Entry> {
    seq(|log|, i requires 0 <= i < |log| => log[i].entry)
  }

  /** The row after the server ingested the requests of a log. */
  function RecordLog(row: ExecutorRow, log: seq<Ingest>): ExecutorRow
    decreases |log|
  {
    if log == [] then row
    else
      var last := log[|log| - 1];
      RecordAll(RecordLog(row, log[..|log| - 1]), last.entry.req.data, last.script)
  }

  function TableAfter(rows: seq<ExecutorRow>, log: seq<Ingest>): seq<ExecutorRow> {
    seq(|rows|, i requires 0 <= i < |rows| => RecordLog(rows[i], log))
  }

  // ---------- redelivery with the same outcomes ----------

  lemma {:induction false} RecordAgain(row: ExecutorRow, mid: ExecutorRow, data: seq<RequestData>, script: seq<bool>)
    requires mid == row.(finish := mid.finish)
    ensures RecordAll(row, data, script) == RecordAll(mid, data, script)
            || (RecordAll(row, data, script) == row && RecordAll(mid, data, script) == mid)
    decreases |data|
  {
    if data != [] {
      RecordAgain(row, mid, data[..|data| - 1], script);
    }
  }

  lemma {:induction false} RecordKeepsRest(row: ExecutorRow, data: seq<RequestData>, script: seq<bool>)
    ensures RecordAll(row, data, script) == row.(finish := RecordAll(row, data, script).finish)
    decreases |data|
  {
    if data != [] {
      RecordKeepsRest(row, data[..|data| - 1], script);
    }
  }

  lemma RecordTwice(row: ExecutorRow, data: seq<RequestData>, script: seq<bool>)
    ensures RecordAll(RecordAll(row, data, script), data, script) == RecordAll(row, data, script)
  {
    RecordKeepsRest(row, data, script);
    RecordAgain(row, RecordAll(row, data, script), data, script);
  }

  lemma {:induction false} CollapseRow(row: ExecutorRow, log: seq<Ingest>)
    ensures RecordLog(row, log) == RecordLog(row, Collapse(log))
    decreases |log|
  {
    if log != [] {
      var front, x := log[..|log| - 1], log[|log| - 1];
      assert log == front + [x];
      CollapseRow(row, front);
      CollapseAppend(front, x);
      if |front| > 0 && front[|front| - 1] == x {
        RecordTwice(RecordLog(row, front[..|front| - 1]), x.entry.req.data, x.script);
      } else {
        assert (Collapse(front) + [x])[..|Collapse(front)|] == Collapse(front);
      }
    }
  }

  /** A request that is ingested again, with the same outcomes (say, all successful),
      does not show in the executor table. */
  lemma RedeliveryInvisible(rows: seq<ExecutorRow>, log: seq<Ingest>)
    ensures TableAfter(rows, log) == TableAfter(rows, Collapse(log))
  {
    forall i | 0 <= i < |rows| ensures RecordLog(rows[i], log) == RecordLog(rows[i], Collapse(log)) {
      CollapseRow(rows[i], log);
    }
  }

  // ---------- redelivery under any outcomes ----------

  predicate Sets(d: RequestData, id: int) { d.ExecutorResult? && d.id == id }

  /** No two results of a request are for the same row. */
  predicate ResultsApart(data: seq<RequestData>) {
    forall i, j :: 0 <= i < j < |data| && data[i].ExecutorResult? && data[j].ExecutorResult? ==> data[i].id != data[j].id
  }

  lemma {:induction false} NoResult(row: ExecutorRow, data: seq<RequestData>, script: seq<bool>)
    requires forall k :: 0 <= k < |data| ==> !Sets(data[k], row.id)
    ensures RecordAll(row, data, script) == row
    decreases |data|
  {
    if data != [] {
      NoResult(row, data[..|data| - 1], script);
    }
  }

  lemma {:induction false} TheResult(row: ExecutorRow, data: seq<RequestData>, script: seq<bool>, j: nat)
    requires ResultsApart(data) && j < |data| && Sets(data[j], row.id)
    ensures RecordAll(row, data, script) == if Passes(script, Statements(data[..j])) then Record(row, data[j]) else row
    decreases |data|
  {
    var front := data[..|data| - 1];
    if j == |front| {
      NoResult(row, front, script);
    } else {
      TheResult(row, front, script, j);
      assert front[..j] == data[..j];
    }
  }

  lemma {:induction false} StatementsBefore(data: seq<RequestData>, j: nat)
    requires j < |data| && data[j].ExecutorResult?
    ensures Statements(data[..j]) < Statements(data)
    decreases |data|
  {
    var front := data[..|data| - 1];
    if j < |front| {
      StatementsBefore(front, j);
      assert front[..j] == data[..j];
    }
  }

  /** Statement by statement: did it succeed in one of two ingests? */
  function Either(a: seq<bool>, b: seq<bool>, n: nat): seq<bool> {
    seq(n, k requires 0 <= k < n => Passes(a, k) || Passes(b, k))
  }

  lemma RecordEither(row: ExecutorRow, data: seq<RequestData>, a: seq<bool>, b: seq<bool>)
    requires ResultsApart(data)
    ensures RecordAll(RecordAll(row, data, a), data, b) == RecordAll(row, data, Either(a, b, Statements(data)))
  {
    var row1 := RecordAll(row, data, a);
    RecordKeepsRest(row, data, a);
    if j: nat :| j < |data| && Sets(data[j], row.id) {
      StatementsBefore(data, j);
      TheResult(row, data, a, j);
      TheResult(row1, data, b, j);
      TheResult(row, data, Either(a, b, Statements(data)), j);
    } else {
      NoResult(row, data, a);
      NoResult(row1, data, b);
      NoResult(row, data, Either(a, b, Statements(data)));
    }
  }

  /** The log without adjacent repeats of a request. What remains succeeded where one
      of the repeats did. */
  function Merged(log: seq<Ingest>): seq<Ingest>
    decreases |log|
  {
    if log == [] then [] else MergeOne(Merged(log[..|log| - 1]), log[|log| - 1])
  }

  /** One more ingest on top of a log without repeats. */
  function MergeOne(log: seq<Ingest>, x: Ingest): seq<Ingest> {
    if log != [] && log[|log| - 1].entry == x.entry then
      log[..|log| - 1] + [Ingest(x.entry, Either(log[|log| - 1].script, x.script, Statements(x.entry.req.data)))]
    else log + [x]
  }

  lemma MergeOneEntries(log: seq<Ingest>, x: Ingest)
    ensures EntriesOf(MergeOne(log, x)) ==
            if log != [] && log[|log| - 1].entry == x.entry then EntriesOf(log) else EntriesOf(log) + [x.entry]
  {
  }

  lemma {:induction false} MergedEntries(log: seq<Ingest>)
    ensures EntriesOf(Merged(log)) == Collapse(EntriesOf(log))
    decreases |log|
  {
    if log != [] {
      var front, x := log[..|log| - 1], log[|log| - 1];
      MergedEntries(front);
      MergeOneEntries(Merged(front), x);
      assert log == front + [x];
      EntriesAppend(front, x);
      CollapseAppend(EntriesOf(front), x.entry);
      SameEnd(Merged(front), front);
    }
  }

  lemma SameEnd(a: seq<Ingest>, b: seq<Ingest>)
    requires EntriesOf(a) == Collapse(EntriesOf(b))
    ensures a == [] <==> b == []
    ensures a != [] && b != [] ==> a[|a| - 1].entry == b[|b| - 1].entry
  {
    assert |EntriesOf(a)| == |a| && |EntriesOf(b)| == |b|;
    if a != [] && b != [] {
      assert EntriesOf(a)[|a| - 1] == a[|a| - 1].entry && EntriesOf(b)[|b| - 1] == b[|b| - 1].entry;
    }
  }

  lemma EntriesAppend(log: seq<Ingest>, x: Ingest)
    ensures EntriesOf(log + [x]) == EntriesOf(log) + [x.entry]
  {
  }

  lemma {:induction false} MergedRow(row: ExecutorRow, log: seq<Ingest>)
    requires forall x <- log :: ResultsApart(x.entry.req.data)
    ensures RecordLog(row, log) == RecordLog(row, Merged(log))
    decreases |log|
  {
    if log != [] {
      var front, x := log[..|log| - 1], log[|log| - 1];
      MergedRow(row, front);
      var m := Merged(front);
      assert x in log;
      if m != [] && m[|m| - 1].entry == x.entry {
        RecordEither(RecordLog(row, m[..|m| - 1]), x.entry.req.data, m[|m| - 1].script, x.script);
        assert Merged(log)[..|m| - 1] == m[..|m| - 1];
      } else {
        assert Merged(log)[..|m|] == m;
      }
    }
  }

  /** At-least-once with failing statements: the table is that of the log without
      repeats, in which each statement succeeds if it did so in one of the repeats. */
  lemma RedeliveryRepairs(rows: seq<ExecutorRow>, log: seq<Ingest>)
    requires forall x <- log :: ResultsApart(x.entry.req.data)
    ensures TableAfter(rows, log) == TableAfter(rows, Merged(log)) && EntriesOf(Merged(log)) == Collapse(EntriesOf(log))
  {
    MergedEntries(log);
    forall i | 0 <= i < |rows| ensures RecordLog(rows[i], log) == RecordLog(rows[i], Merged(log)) {
      MergedRow(rows[i], log);
    }
  }

  // ---------- open, then finished, once ----------

  predicate SetsRow(e: Entry, id: int) {
    exists k :: 0 <= k < |e.req.data| && Sets(e.req.data[k], id)
  }

  /** The one result of a request that carries nothing else, written. */
  predicate Writes(x: Ingest, e: Entry) {
    x.entry == e && Passes(x.script, 0)
  }

  /** If all that the log has for an open row is the result in e, possibly repeated,
      the row ends up with it if some statement succeeded, and open if none did. */
  lemma {:induction false} OnlyOneResult(row: ExecutorRow, log: seq<Ingest>, e: Entry)
    requires row.finish.None? && IsResult(e.req, row.id)
    requires forall x <- log :: SetsRow(x.entry, row.id) ==> x.entry == e
    ensures RecordLog(row, log) == if exists x <- log :: Writes(x, e) then Record(row, e.req.data[0]) else row
    decreases |log|
  {
    if log != [] {
      var front, x := log[..|log| - 1], log[|log| - 1];
      OnlyOneResult(row, front, e);
      var before := RecordLog(row, front);
      assert x in log && forall y <- front :: y in log;
      assert forall y <- log :: y in front || y == x;
      if x.entry == e {
        assert e.req.data[..0] == [];
        TheResult(before, e.req.data, x.script, 0);
      } else {
        NoResult(before, x.entry.req.data, x.script);
      }
    }
  }

  /** Every result in the log of a run is alone in its request. */
  lemma LoggedResult(s: State, e: Entry, id: int)
    requires QueueConserved(s) && LogInOrder(s) && ExecutorsOk(s)
    requires e in s.server.log && SetsRow(e, id)
    ensures IsResult(e.req, id)
  {
    LoggedWasEnqueued(s, e);
    var k :| 0 <= k < |s.past.enqueued| && s.past.enqueued[k] == e;
    assert HasResult(s.past.enqueued[k].req);
  }

  lemma LoggedWasEnqueued(s: State, e: Entry)
    requires QueueConserved(s) && LogInOrder(s) && e in s.server.log
    ensures e in s.past.enqueued
  {
    LogIsPrefix(s);
    CollapseHas(s.server.log, e);
    var i :| 0 <= i < |Collapse(s.server.log)| && Collapse(s.server.log)[i] == e;
    assert e == TcpOnly(s.past.enqueued)[i];
  }

  /** Two requests of the log with a result for the same row are the same request. */
  lemma SameResult(s: State, e: Entry, e': Entry, id: int)
    requires QueueConserved(s) && LogInOrder(s) && ExecutorsOk(s)
    requires e in s.server.log && e' in s.server.log && SetsRow(e, id) && SetsRow(e', id)
    ensures e == e'
  {
    var log := Collapse(s.server.log);
    CollapseHas(s.server.log, e);
    CollapseHas(s.server.log, e');
    var i :| 0 <= i < |log| && log[i] == e;
    var j :| 0 <= j < |log| && log[j] == e';
    assert HasResult(e.req) && HasResult(e'.req);
    LoggedResult(s, e, id);
    LoggedResult(s, e', id);
    if i < j {
      LogResults(s, i, j);
    } else if j < i {
      LogResults(s, j, i);
    }
  }

  /** In every run, for any outcomes of the server's statements: an open row for which
      the log has a result holds that result if one of its deliveries was written, and
      is open if none was. */
  lemma FinishedExactly(timeouts: seq<nat>, actions: seq<Action>, row: ExecutorRow, log: seq<Ingest>, e: Entry)
    requires IsRun(Init(timeouts), actions) && EntriesOf(log) == Exec(Init(timeouts), actions).server.log
    requires row.finish.None? && e in EntriesOf(log) && SetsRow(e, row.id)
    ensures |e.req.data| == 1
    ensures RecordLog(row, log) == if exists x <- log :: Writes(x, e) then Record(row, e.req.data[0]) else row
    ensures (exists x <- log :: Writes(x, e)) ==> e.req.data[0].ExecutorResult? && HoldsResult(row, RecordLog(row, log), e.req.data[0])
    ensures RecordLog(row, log).finish.Some? <==> exists x <- log :: Writes(x, e)
  {
    SafeInit(timeouts);
    SafeRun(Init(timeouts), actions);
    FinishedIn(Exec(Init(timeouts), actions), row, log, log, e);
  }

  lemma FinishedIn(s: State, row: ExecutorRow, all: seq<Ingest>, log: seq<Ingest>, e: Entry)
    requires QueueConserved(s) && LogInOrder(s) && ExecutorsOk(s) && EntriesOf(all) == s.server.log && log <= all
    requires row.finish.None? && e in s.server.log && SetsRow(e, row.id)
    ensures IsResult(e.req, row.id)
    ensures RecordLog(row, log) == if exists x <- log :: Writes(x, e) then Record(row, e.req.data[0]) else row
  {
    LoggedResult(s, e, row.id);
    forall x | x in log && SetsRow(x.entry, row.id) ensures x.entry == e {
      var k :| 0 <= k < |log| && log[k] == x;
      assert EntriesOf(all)[k] == x.entry;
      SameResult(s, x.entry, e, row.id);
    }
    OnlyOneResult(row, log, e);
  }

  /** In every run, for any outcomes: once the row is finished, no later request
      changes it, redelivered or not. */
  lemma {:induction false} FinishedOnce(timeouts: seq<nat>, actions: seq<Action>, row: ExecutorRow, log: seq<Ingest>, n: nat)
    requires IsRun(Init(timeouts), actions) && EntriesOf(log) == Exec(Init(timeouts), actions).server.log
    requires row.finish.None? && n <= |log| && RecordLog(row, log[..n]).finish.Some?
    ensures RecordLog(row, log) == RecordLog(row, log[..n])
  {
    SafeInit(timeouts);
    SafeRun(Init(timeouts), actions);
    var s := Exec(Init(timeouts), actions);
    var k := FinishedBy(row, log[..n]);
    assert EntriesOf(log)[k] == log[k].entry;
    FinishedIn(s, row, log, log, log[k].entry);
    FinishedIn(s, row, log, log[..n], log[k].entry);
    assert forall x <- log[..n] :: x in log;
  }

  /** A row that is finished after a log, and was open before, owes it to some entry. */
  lemma {:induction false} FinishedBy(row: ExecutorRow, log: seq<Ingest>) returns (k: nat)
    requires row.finish.None? && RecordLog(row, log).finish.Some?
    ensures k < |log| && SetsRow(log[k].entry, row.id)
    decreases |log|
  {
    var front := log[..|log| - 1];
    RowKeepsId(row, front);
    if RecordLog(row, front).finish.Some? {
      k := FinishedBy(row, front);
    } else {
      k := |log| - 1;
      if !SetsRow(log[k].entry, row.id) {
        NoResult(RecordLog(row, front), log[k].entry.req.data, log[k].script);
      }
    }
  }

  lemma {:induction false} RowKeepsId(row: ExecutorRow, log: seq<Ingest>)
    ensures RecordLog(row, log).id == row.id
    decreases |log|
  {
    if log != [] {
      var last := log[|log| - 1];
      RowKeepsId(row, log[..|log| - 1]);
      RecordKeepsRest(RecordLog(row, log[..|log| - 1]), last.entry.req.data, last.script);
    }
  }
}
