/** The write-back theorems: selective flush against full rewrite, over a session;
    the handshake of a known computer; identities. Statements succeed (the script is
    empty) except where a failure is the point. */
module WriteBack {
  import opened Wire
  import opened Database
  import opened Computers
  import opened Reconciliation

  // ---------- selective flush against full rewrite ----------

  function Dirtied(devs: seq<RmsStorageInfo>): seq<RmsStorageInfo> {
    seq(|devs|, i requires 0 <= i < |devs| => devs[i].(dirty := true))
  }

  /** The storage table if every device were written, dirty or not. */
  function Rewritten(devs: seq<RmsStorageInfo>, t: Tables): seq<StorageRow> {
    Flush(Dirtied(devs), t).1.storage
  }

  /** Flushing only what is dirty equals rewriting everything exactly when every
      clean device already agrees with its row. */
  lemma SelectiveFlushIsRewrite(devs: seq<RmsStorageInfo>, t: Tables)
    requires t.script == [] && DistinctIds(devs) && PositiveIds(t.storage)
    ensures Flush(devs, t).1.storage == Rewritten(devs, t) <==>
            forall i, k :: 0 <= i < |devs| && 0 <= k < |t.storage| && devs[i].id == t.storage[k].id && !devs[i].dirty ==>
              t.storage[k] == RowFrom(t.storage[k], devs[i])
  {
    FlushAt(devs, t);
    FlushAt(Dirtied(devs), t);
    var rows, selective, full := t.storage, Flush(devs, t).1.storage, Rewritten(devs, t);
    forall k | 0 <= k < |rows|
      ensures selective[k] == full[k] <==>
              forall i :: 0 <= i < |devs| && devs[i].id == rows[k].id && !devs[i].dirty ==> rows[k] == RowFrom(rows[k], devs[i])
    {
      SelectiveRow(devs, rows[k], selective[k], full[k]);
    }
  }

  lemma SelectiveRow(devs: seq<RmsStorageInfo>, row: StorageRow, selective: StorageRow, full: StorageRow)
    requires FlushedRow(devs, row, selective) && FlushedRow(Dirtied(devs), row, full)
    ensures selective == full <==>
            forall i :: 0 <= i < |devs| && devs[i].id == row.id && !devs[i].dirty ==> row == RowFrom(row, devs[i])
  {
    assert forall i :: 0 <= i < |devs| ==> Dirtied(devs)[i] == devs[i].(dirty := true);
    if exists i :: 0 <= i < |devs| && devs[i].id == row.id {
      var i :| 0 <= i < |devs| && devs[i].id == row.id;
      assert Dirtied(devs)[i].id == row.id;
    }
  }

  // ---------- a session ----------

  /** Reported, clean, and equal to its row, if it has one. */
  ghost predicate InSync(d: RmsStorageInfo, rows: seq<StorageRow>) {
    !d.dirty && d.connected && forall k :: 0 <= k < |rows| && rows[k].id == d.id ==> rows[k] == RowFrom(rows[k], d)
  }

  predicate DistinctReport(report: seq<StorageInfo>) {
    forall i, j :: 0 <= i < j < |report| ==> report[i].dev != report[j].dev
  }

  lemma {:induction false} EntriesOfDistinct(report: seq<StorageInfo>, path: string)
    requires DistinctReport(report)
    ensures |Entries(report, path)| <= 1
    decreases |report|
  {
    if report != [] {
      if report[0].dev == path {
        NoEntries(report[1..], path);
      } else {
        EntriesOfDistinct(report[1..], path);
      }
    }
  }

  lemma NoEntries(report: seq<StorageInfo>, path: string)
    requires forall i :: 0 <= i < |report| ==> report[i].dev != path
    ensures Entries(report, path) == []
  {
  }

  /** Device i still is the device of its row: id and path stay, and so do the row ids. */
  predicate SameKeys(c: Computer, t: Tables, c': Computer, t': Tables, i: nat)
    requires i < |c.devs| && i < |c'.devs|
  {
    && c'.devs[i].id == c.devs[i].id && c'.devs[i].devPath == c.devs[i].devPath
    && |t'.storage| == |t.storage| && StorageIds(t'.storage) == StorageIds(t.storage)
  }

  lemma {:induction false} TrackPath(d: RmsStorageInfo, es: seq<StorageInfo>)
    requires forall e <- es :: e.dev == d.devPath
    ensures Track(d, es).devPath == d.devPath
    decreases |es|
  {
    if es != [] {
      TrackPath(Taken(d, es[0]), es[1..]);
    }
  }

  /** Written once, a device stays equal to its row through a report without
      repeated paths; and a report that makes it dirty writes it. */
  lemma ReportKeepsSync(c: Computer, report: SystemInfo, t: Tables, i: nat)
    requires SessionOk(c, t) && i < |c.devs| && DistinctReport(report.storage)
    requires var es := Entries(report.storage, c.devs[i].devPath);
             InSync(c.devs[i], t.storage) || (|es| > 0 && !Unchanged(c.devs[i], es))
    ensures var (c', t') := SendSys(c, report, t);
            i < |c'.devs| && InSync(c'.devs[i], t'.storage) && SameKeys(c, t, c', t', i)
  {
    var (c', t') := SendSys(c, report, t);
    SendSysParts(c, report, t);
    MergeAllAt(c.devs, report.storage);
    var d, es := c.devs[i], Entries(report.storage, c.devs[i].devPath);
    var m := MergeAll(c.devs, report.storage)[i];
    EntriesOfDistinct(report.storage, d.devPath);
    if |es| > 0 { TrackLast(d, es); }
    TrackId(d, es);
    TrackPath(d, es);
    forall k | 0 <= k < |t'.storage| && t'.storage[k].id == m.id
      ensures t'.storage[k] == RowFrom(t'.storage[k], m.(dirty := false))
    {
      assert StorageIds(t'.storage)[k] == StorageIds(t.storage)[k] == t.storage[k].id;
      assert FlushedRow(MergeAll(c.devs, report.storage), t.storage[k], t'.storage[k]);
    }
  }

  function Session(c: Computer, reports: seq<SystemInfo>, t: Tables): (Computer, Tables)
    decreases |reports|
  {
    if reports == [] then (c, t)
    else var (c1, t1) := SendSys(c, reports[0], t); Session(c1, reports[1..], t1)
  }

  /** The dirty-bit invariant of a session: once in sync, in sync after every later call. */
  lemma {:induction false} SessionKeepsSync(c: Computer, reports: seq<SystemInfo>, t: Tables, i: nat)
    requires SessionOk(c, t) && i < |c.devs| && InSync(c.devs[i], t.storage)
    requires forall r <- reports :: DistinctReport(r.storage)
    ensures var (c', t') := Session(c, reports, t);
            SessionOk(c', t') && i < |c'.devs| && InSync(c'.devs[i], t'.storage) && SameKeys(c, t, c', t', i)
    decreases |reports|
  {
    if reports != [] {
      ReportKeepsSync(c, reports[0], t, i);
      SendSysParts(c, reports[0], t);
      var (c1, t1) := SendSys(c, reports[0], t);
      SessionKeepsSync(c1, reports[1..], t1, i);
    }
  }

  /** The last entry for a path over several reports. */
  function LastEntry(reports: seq<SystemInfo>, path: string): Option<StorageInfo>
    decreases |reports|
  {
    if reports == [] then None
    else
      var later := LastEntry(reports[1..], path);
      var es := Entries(reports[0].storage, path);
      if later.Some? || es == [] then later else Some(es[|es| - 1])
  }

  function Shown(r: StorageRow, e: Option<StorageInfo>): StorageRow {
    match e
    case Some(s) => Target(r, s)
    case None => r
  }

  /** One report: the row of a device in sync shows the entry for its path, if any. */
  lemma ReportRow(c: Computer, report: SystemInfo, t: Tables, i: nat, k: nat)
    requires SessionOk(c, t) && i < |c.devs| && InSync(c.devs[i], t.storage) && DistinctReport(report.storage)
    requires k < |t.storage| && t.storage[k].id == c.devs[i].id
    ensures |SendSys(c, report, t).1.storage| == |t.storage|
    ensures SendSys(c, report, t).1.storage[k] == Shown(t.storage[k], LastEntry([report], c.devs[i].devPath))
  {
    var d := c.devs[i];
    assert [report][1..] == [];
    DeviceRowAfterReport(c, report, t, i, k);
    EntriesOfDistinct(report.storage, d.devPath);
  }

  /** Over a session, the row of a device in sync shows the last entry that was ever
      reported for its path, and agrees with the device. */
  lemma {:induction false} SessionRow(c: Computer, reports: seq<SystemInfo>, t: Tables, i: nat, k: nat)
    requires SessionOk(c, t) && i < |c.devs| && InSync(c.devs[i], t.storage)
    requires k < |t.storage| && t.storage[k].id == c.devs[i].id
    requires forall r <- reports :: DistinctReport(r.storage)
    ensures var (c', t') := Session(c, reports, t);
            && i < |c'.devs| && SameKeys(c, t, c', t', i)
            && t'.storage[k] == Shown(t.storage[k], LastEntry(reports, c.devs[i].devPath))
            && (LastEntry(reports, c.devs[i].devPath).Some? ==>
                  ShowsEntry(t.storage[k], t'.storage[k], LastEntry(reports, c.devs[i].devPath).value))
            && t'.storage[k].id == c'.devs[i].id && t'.storage[k] == RowFrom(t'.storage[k], c'.devs[i])
    decreases |reports|
  {
    if reports != [] {
      ReportKeepsSync(c, reports[0], t, i);
      SendSysParts(c, reports[0], t);
      ReportRow(c, reports[0], t, i, k);
      var (c1, t1) := SendSys(c, reports[0], t);
      assert [reports[0]][1..] == [] && StorageIds(t1.storage)[k] == StorageIds(t.storage)[k];
      SessionRow(c1, reports[1..], t1, i, k);
    }
  }

  /** Within a session the computer row follows the reports: it shows the newest one
      exactly when that one differs from the last, or the row was right already. */
  lemma SessionComputerRow(c: Computer, report: SystemInfo, t: Tables, j: nat)
    requires SessionOk(c, t) && j < |t.computers| && t.computers[j].id == c.id
    ensures |SendSys(c, report, t).1.computers| == |t.computers|
    ensures SendSys(c, report, t).1.computers[j] == RowOf(c.id, report) <==>
            !SameSys(c.sys, report) || t.computers[j] == RowOf(c.id, report)
  {
    SendSysParts(c, report, t);
  }

  // ---------- dirty is assigned, not accumulated ----------

  /** The report names the device's path, and nothing but what the device holds. */
  predicate Repeats(d: RmsStorageInfo, report: SystemInfo) {
    var es := Entries(report.storage, d.devPath);
    es != [] && forall e <- es :: SameDevice(d, e)
  }

  lemma RepeatedIsUnchanged(d: RmsStorageInfo, report: SystemInfo)
    requires Repeats(d, report)
    ensures Unchanged(d, Entries(report.storage, d.devPath))
    ensures Track(d, Entries(report.storage, d.devPath)) == d.(connected := true, dirty := false)
  {
    var es := Entries(report.storage, d.devPath);
    assert es[|es| - 1] in es && (|es| > 1 ==> es[|es| - 2] in es);
    TrackLast(d, es);
  }

  /** Reports that repeat what a device holds never write its row, dirty or stale as
      it may be, and whatever the statements do. */
  lemma {:induction false} RepeatsNeverWrite(c: Computer, reports: seq<SystemInfo>, t: Tables, i: nat, k: nat)
    requires Settled(c, t) && i < |c.devs| && k < |t.storage| && t.storage[k].id == c.devs[i].id
    requires forall r <- reports :: Repeats(c.devs[i], r)
    ensures var t' := Session(c, reports, t).1; k < |t'.storage| && t'.storage[k] == t.storage[k]
    decreases |reports|
  {
    if reports != [] {
      var report := reports[0];
      assert Repeats(c.devs[i], report);
      RepeatedIsUnchanged(c.devs[i], report);
      DeviceRowUnder(c, report, t, i, k);
      SendSysUnder(c, report, t);
      var (c1, t1) := SendSys(c, report, t);
      assert c1.devs[i] == c.devs[i].(connected := true, dirty := false);
      forall r | r in reports[1..] ensures Repeats(c1.devs[i], r) {
        assert Repeats(c.devs[i], r);
      }
      RepeatsNeverWrite(c1, reports[1..], t1, i, k);
    }
  }

  /** The statement of the last report that changed a device decides: if later
      reports only repeat that one, the row shows it exactly when it changed the
      device and its statement succeeded, or the row was right before it. */
  lemma LastChangeDecides(c: Computer, report: SystemInfo, later: seq<SystemInfo>, t: Tables, i: nat, k: nat)
    requires Settled(c, t) && i < |c.devs| && k < |t.storage| && t.storage[k].id == c.devs[i].id
    requires Entries(report.storage, c.devs[i].devPath) != []
    requires forall r <- later :: Repeats(Track(c.devs[i], Entries(report.storage, c.devs[i].devPath)), r)
    ensures |MergeAll(c.devs, report.storage)| >= |c.devs| && k < |Session(c, [report] + later, t).1.storage|
    ensures var es := Entries(report.storage, c.devs[i].devPath);
            var goal := Target(t.storage[k], es[|es| - 1]);
            Session(c, [report] + later, t).1.storage[k] == goal <==>
              (!Unchanged(c.devs[i], es) && Reaches(c, report, t.script, i)) || t.storage[k] == goal
  {
    DeviceRowUnder(c, report, t, i, k);
    SendSysUnder(c, report, t);
    var (c1, t1) := SendSys(c, report, t);
    var d := Track(c.devs[i], Entries(report.storage, c.devs[i].devPath));
    TrackId(c.devs[i], Entries(report.storage, c.devs[i].devPath));
    forall r | r in later ensures Repeats(c1.devs[i], r) {
      assert Repeats(d, r);
    }
    assert StorageIds(t1.storage)[k] == StorageIds(t.storage)[k];
    RepeatsNeverWrite(c1, later, t1, i, k);
    assert ([report] + later)[1..] == later;
  }

  const DEVICE := RmsStorageInfo(1, "/dev/sda1", "ext4", "/", 5, 9, true, false)
  const USED := StorageInfo("/dev/sda1", "ext4", 4, 9, "/")
  const DEVICE_ROW := StorageRow(1, 1, "/dev/sda1", "ext4", "/", 5, 9, true)

  /** A failed update followed by the same report: the device is clean, its row stale. */
  lemma FailedUpdateIsForgotten()
    ensures var c := Computer(1, EMPTY_SYS, [DEVICE], false);
            var report := EMPTY_SYS.(storage := [USED]);
            var t := Tables([RowOf(1, EMPTY_SYS)], [DEVICE_ROW], [false]);
            && InSync(DEVICE, t.storage)
            && var (c1, t1) := SendSys(c, report, t);
               var (c2, t2) := SendSys(c1, report, t1);
               t2.storage == [DEVICE_ROW] && |c2.devs| == 1 && !c2.devs[0].dirty && c2.devs[0].free == 4
  {
    var c := Computer(1, EMPTY_SYS, [DEVICE], false);
    var report := EMPTY_SYS.(storage := [USED]);
    var t := Tables([RowOf(1, EMPTY_SYS)], [DEVICE_ROW], [false]);
    OneReport(DEVICE, USED);
    var d1 := Taken(DEVICE, USED);
    assert SetSys(c, report) == Computer(1, EMPTY_SYS, [d1], false);
    OneFlush(d1, t);
    var t1 := t.(script := []);
    assert SendSys(c, report, t) == (Computer(1, EMPTY_SYS, [d1], false), t1);
    OneReport(d1, USED);
    var d2 := Taken(d1, USED);
    assert SetSys(Computer(1, EMPTY_SYS, [d1], false), report) == Computer(1, EMPTY_SYS, [d2], false);
    OneFlush(d2, t1);
    assert SendSys(Computer(1, EMPTY_SYS, [d1], false), report, t1) == (Computer(1, EMPTY_SYS, [d2], false), t1);
  }

  /** A report that names the path twice, with the same new entry: the second one
      compares as unchanged, and nothing is written, though every statement succeeds. */
  lemma RepeatedPathIsForgotten()
    ensures var c := Computer(1, EMPTY_SYS, [DEVICE], false);
            var report := EMPTY_SYS.(storage := [USED, USED]);
            var t := Tables([RowOf(1, EMPTY_SYS)], [DEVICE_ROW], []);
            InSync(DEVICE, t.storage) && SendSys(c, report, t).1.storage == [DEVICE_ROW] && DEVICE_ROW != Target(DEVICE_ROW, USED)
  {
    var c := Computer(1, EMPTY_SYS, [DEVICE], false);
    var report := EMPTY_SYS.(storage := [USED, USED]);
    var t := Tables([RowOf(1, EMPTY_SYS)], [DEVICE_ROW], []);
    assert t.computers[0].id == c.id && StorageIds(t.storage) == [1] && ComputerIds(t.computers) == [1];
    assert [USED, USED][1..] == [USED] && [USED][1..] == [];
    assert Entries([USED], DEVICE.devPath) == [USED] + Entries([], DEVICE.devPath) == [USED];
    assert Entries([USED, USED], DEVICE.devPath) == [USED] + [USED];
    DeviceRowAfterReport(c, report, t, 0, 0);
  }

  lemma OneReport(d: RmsStorageInfo, s: StorageInfo)
    requires d.devPath == s.dev
    ensures MergeAll([d], [s]) == [Taken(d, s)]
  {
    assert [s][1..] == [] && Merge([d], s) == [Taken(d, s)] + [d][1..];
  }

  lemma OneFlush(d: RmsStorageInfo, t: Tables)
    ensures Flush([d], t) == ([FlushDevice(d, t).0], FlushDevice(d, t).1)
  {
    var (d1, t1) := FlushDevice(d, t);
    assert [d][1..] == [] && Flush([], t1) == ([], t1);
    assert [d1] + [] == [d1];
  }
}
