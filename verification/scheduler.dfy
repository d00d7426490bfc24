/** When DbRequestIngestor pushes, and for which hour of the day. Times are readings
    of the steady clock in nanoseconds. */
module Schedulers {

  const HOUR := 3_600_000_000_000
  const FIVE_MINUTES := 300_000_000_000

  /** tick_ and next_usage_push_. */
  datatype Scheduler = Scheduler(tick: int, deadline: int)

  function Boot(now: int): Scheduler { Scheduler(-1, now + FIVE_MINUTES) }

  /** One datum: the steady clock, and the local hour, read as it is ingested. */
  datatype Datum = Datum(now: int, hour: nat)

  datatype Push = Push(tick: int, now: int, hour: nat)

  predicate Due(s: Scheduler, d: Datum) { d.now > s.deadline }

  function TickOf(s: Scheduler, d: Datum): int { if s.tick == -1 then d.hour else s.tick }

  function Step(s: Scheduler, d: Datum): Scheduler {
    if !Due(s, d) then s
    else
      var tick := TickOf(s, d);
      Scheduler(if tick == 23 then 0 else tick + 1, s.deadline + HOUR)
  }

  function Pushed(s: Scheduler, d: Datum): seq<Push> {
    if Due(s, d) then [Push(TickOf(s, d), d.now, d.hour)] else []
  }

  /** The scheduler and its pushes after a run of data since boot. */
  function Run(boot: int, data: seq<Datum>): (Scheduler, seq<Push>)
    decreases |data|
  {
    if data == [] then (Boot(boot), [])
    else
      var (s, ps) := Run(boot, data[..|data| - 1]);
      var d := data[|data| - 1];
      (Step(s, d), ps + Pushed(s, d))
  }

  predicate HoursOk(data: seq<Datum>) {
    forall i :: 0 <= i < |data| ==> data[i].hour < 24
  }

  /** The hour of the day i hours after h. */
  function Later(h: int, i: int): int { (h + i) % 24 }

  /** What k = |ps| pushes since boot amount to: the ticks have run on from the hour
      of the first one, the deadline is k hours on, and no push came before its own
      deadline. */
  ghost predicate Pace(boot: int, s: Scheduler, ps: seq<Push>) {
    && s.deadline == boot + FIVE_MINUTES + |ps| * HOUR
    && (if |ps| == 0 then s.tick == -1 else s.tick == Later(ps[0].hour, |ps|))
    && (forall i :: 0 <= i < |ps| ==> ps[i].tick == Later(ps[0].hour, i))
    && (forall i :: 0 <= i < |ps| ==> ps[i].now > boot + FIVE_MINUTES + i * HOUR)
    && (forall i :: 0 <= i < |ps| ==> ps[i].hour < 24)
  }

  lemma NextTick(h: int, i: int)
    ensures Later(h, i + 1) == if Later(h, i) == 23 then 0 else Later(h, i) + 1
  {
  }

  lemma PaceStep(boot: int, s: Scheduler, ps: seq<Push>, d: Datum)
    requires Pace(boot, s, ps) && d.hour < 24
    ensures Pace(boot, Step(s, d), ps + Pushed(s, d))
  {
    if Due(s, d) {
      if |ps| == 0 {
        NextTick(d.hour, 0);
        assert Later(d.hour, 0) == d.hour;
      } else {
        NextTick(ps[0].hour, |ps|);
        assert Later(ps[0].hour, |ps|) >= 0;
      }
    } else {
      assert ps + [] == ps;
    }
  }

  lemma {:induction false} AfterPushes(boot: int, data: seq<Datum>)
    requires HoursOk(data)
    ensures Pace(boot, Run(boot, data).0, Run(boot, data).1)
    ensures Run(boot, data).0.deadline == boot + 300_000_000_000 + |Run(boot, data).1| * 3_600_000_000_000
    decreases |data|
  {
    if data != [] {
      var front := data[..|data| - 1];
      AfterPushes(boot, front);
      PaceStep(boot, Run(boot, front).0, Run(boot, front).1, data[|data| - 1]);
    }
  }

  /** Any 24 consecutive pushes write each of the 24 hours, once. */
  lemma DayOfPushes(boot: int, data: seq<Datum>, from: nat, tick: nat)
    requires HoursOk(data) && from + 24 <= |Run(boot, data).1| && tick < 24
    ensures var ps := Run(boot, data).1;
            exists i :: from <= i < from + 24 && ps[i].tick == tick
              && forall j :: from <= j < from + 24 && ps[j].tick == tick ==> j == i
  {
    AfterPushes(boot, data);
    var ps := Run(boot, data).1;
    var h := ps[0].hour;
    var i := from + (tick - (h + from) % 24) % 24;
    HitsTick(h, from, tick);
    assert ps[i].tick == tick;
    forall j | from <= j < from + 24 && ps[j].tick == tick ensures j == i {
      SameTick(h, i, j);
    }
  }

  lemma HitsTick(h: nat, from: nat, tick: nat)
    requires tick < 24
    ensures (h + (from + (tick - (h + from) % 24) % 24)) % 24 == tick
  {
    var r := (h + from) % 24;
    assert h + from == 24 * ((h + from) / 24) + r;
    if tick >= r {
      assert (tick - r) % 24 == tick - r;
    } else {
      assert (tick - r) % 24 == tick - r + 24;
    }
  }

  lemma SameTick(h: nat, i: nat, j: nat)
    requires (h + i) % 24 == (h + j) % 24 && -24 < i - j < 24
    ensures i == j
  {
  }

  // ---------- catching up ----------

  /** How many deadlines lie strictly before a time. */
  function DueBy(boot: int, now: int): nat {
    var late := now - (boot + FIVE_MINUTES);
    if late <= 0 then 0 else (late - 1) / HOUR + 1
  }

  lemma DueByCounts(boot: int, now: int, k: nat)
    ensures now > boot + FIVE_MINUTES + k * HOUR <==> DueBy(boot, now) > k
  {
  }

  /** One datum pushes once if there is a backlog, and shortens it by one. */
  lemma OneDatum(boot: int, data: seq<Datum>, d: Datum)
    requires HoursOk(data + [d])
    ensures var before, after := |Run(boot, data).1|, |Run(boot, data + [d]).1|;
            after == if DueBy(boot, d.now) > before then before + 1 else before
  {
    assert (data + [d])[..|data|] == data;
    assert forall i :: 0 <= i < |data| ==> (data + [d])[i] == data[i];
    AfterPushes(boot, data);
    DueByCounts(boot, d.now, |Run(boot, data).1|);
  }

  /** n data that arrive between two times work off the backlog of the first, up to n
      pushes, and never run ahead of the deadlines passed by the second. */
  lemma {:induction false} CatchUp(boot: int, data: seq<Datum>, more: seq<Datum>, first: int, last: int)
    requires HoursOk(data + more)
    requires forall i :: 0 <= i < |more| ==> first <= more[i].now <= last
    ensures var before, after := |Run(boot, data).1|, |Run(boot, data + more).1|;
            && (after >= before + |more| || after >= DueBy(boot, first))
            && before <= after && (after == before || after <= DueBy(boot, last))
    decreases |more|
  {
    if more == [] {
      assert data + more == data;
    } else {
      var front, d := more[..|more| - 1], more[|more| - 1];
      assert data + more == (data + front) + [d];
      assert forall i :: 0 <= i < |data + front| ==> (data + more)[i] == (data + front)[i];
      CatchUp(boot, data, front, first, last);
      OneDatum(boot, data + front, d);
      DueByMonotone(boot, first, d.now);
      DueByMonotone(boot, d.now, last);
    }
  }

  lemma DueByMonotone(boot: int, a: int, b: int)
    requires a <= b
    ensures DueBy(boot, a) <= DueBy(boot, b)
  {
  }
}
