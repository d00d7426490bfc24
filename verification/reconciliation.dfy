/** What a handshake and the later sendSysInfo calls leave in the tables. */
module Reconciliation {
  import opened Wire
  import opened Scripts
  import opened Database
  import opened Computers

  // ---------- one device through a report ----------

  /** The reported entries for a path, in order. */
  function Entries(report: seq<StorageInfo>, path: string): (es: seq<StorageInfo>)
    ensures forall e <- es :: e in report && e.dev == path
  {
    if report == [] then []
    else (if report[0].dev == path then [report[0]] else []) + Entries(report[1..], path)
  }

  function Track(d: RmsStorageInfo, es: seq<StorageInfo>): RmsStorageInfo
    decreases |es|
  {
    if es == [] then d else Track(Taken(d, es[0]), es[1..])
  }

  /** The comparison that decides about dirty, on the last entry for the device's
      path: with the entry before it, or with the device if it is the only one. */
  predicate Unchanged(d: RmsStorageInfo, es: seq<StorageInfo>)
    requires |es| > 0
  {
    if |es| == 1 then SameDevice(d, es[0]) else es[|es| - 2] == es[|es| - 1]
  }

  lemma {:induction false} TrackLast(d: RmsStorageInfo, es: seq<StorageInfo>)
    requires |es| > 0 && forall e <- es :: e.dev == d.devPath
    ensures var last := es[|es| - 1];
            Track(d, es) == RmsStorageInfo(d.id, last.dev, last.fsType, last.mountPoint, last.free, last.total,
                                           true, !Unchanged(d, es))
    decreases |es|
  {
    if |es| > 1 {
      TrackLast(Taken(d, es[0]), es[1..]);
    }
  }

  predicate DistinctPaths(devs: seq<RmsStorageInfo>) {
    forall i, j :: 0 <= i < j < |devs| ==> devs[i].devPath != devs[j].devPath
  }

  /** Row ids are shared by no two devices; -1 marks a device without a row. */
  predicate DistinctIds(devs: seq<RmsStorageInfo>) {
    forall i, j :: 0 <= i < j < |devs| && devs[i].id != -1 ==> devs[i].id != devs[j].id
  }

  lemma {:induction false} MergeAt(devs: seq<RmsStorageInfo>, s: StorageInfo)
    requires DistinctPaths(devs)
    ensures |devs| <= |Merge(devs, s)| <= |devs| + 1 && DistinctPaths(Merge(devs, s))
    ensures forall i :: 0 <= i < |devs| ==>
              Merge(devs, s)[i] == if devs[i].devPath == s.dev then Taken(devs[i], s) else devs[i]
    ensures |Merge(devs, s)| > |devs| ==>
              Merge(devs, s)[|devs|] == NewDevice(s) && forall i :: 0 <= i < |devs| ==> devs[i].devPath != s.dev
    decreases |devs|
  {
    if devs != [] && devs[0].devPath != s.dev {
      MergeAt(devs[1..], s);
    }
  }

  lemma TrackHead(d: RmsStorageInfo, report: seq<StorageInfo>)
    requires report != []
    ensures Track(d, Entries(report, d.devPath)) ==
            Track(if d.devPath == report[0].dev then Taken(d, report[0]) else d, Entries(report[1..], d.devPath))
  {
    var es := Entries(report[1..], d.devPath);
    assert ([report[0]] + es)[1..] == es;
    assert [] + es == es;
  }

  lemma {:induction false} MergeAllAt(devs: seq<RmsStorageInfo>, report: seq<StorageInfo>)
    requires DistinctPaths(devs)
    ensures |MergeAll(devs, report)| >= |devs| && DistinctPaths(MergeAll(devs, report))
    ensures forall i :: 0 <= i < |devs| ==> MergeAll(devs, report)[i] == Track(devs[i], Entries(report, devs[i].devPath))
    ensures forall i :: |devs| <= i < |MergeAll(devs, report)| ==> MergeAll(devs, report)[i].id == -1
    decreases |report|
  {
    if report != [] {
      var devs1 := Merge(devs, report[0]);
      MergeAt(devs, report[0]);
      MergeAllAt(devs1, report[1..]);
      forall i | 0 <= i < |devs|
        ensures MergeAll(devs, report)[i] == Track(devs[i], Entries(report, devs[i].devPath))
      {
        TrackHead(devs[i], report);
        assert devs1[i].devPath == devs[i].devPath;
      }
      if |devs1| > |devs| {
        TrackId(devs1[|devs|], Entries(report[1..], devs1[|devs|].devPath));
      }
    }
  }

  lemma {:induction false} TrackId(d: RmsStorageInfo, es: seq<StorageInfo>)
    ensures Track(d, es).id == d.id
    decreases |es|
  {
    if es != [] {
      TrackId(Taken(d, es[0]), es[1..]);
    }
  }

  // ---------- the flush ----------

  predicate PositiveIds(rows: seq<StorageRow>) {
    forall k :: 0 <= k < |rows| ==> rows[k].id > 0
  }

  /** Row k after the selective flush of devs. */
  ghost predicate FlushedRow(devs: seq<RmsStorageInfo>, before: StorageRow, after: StorageRow) {
    && (forall i :: 0 <= i < |devs| && devs[i].id == before.id ==>
          after == if devs[i].dirty then RowFrom(before, devs[i]) else before)
    && ((forall i :: 0 <= i < |devs| ==> devs[i].id != before.id) ==> after == before)
  }

  function Cleaned(devs: seq<RmsStorageInfo>): seq<RmsStorageInfo> {
    seq(|devs|, i requires 0 <= i < |devs| => devs[i].(dirty := false))
  }

  /** How many of the devices have a statement: the dirty ones. */
  function Turns(devs: seq<RmsStorageInfo>): nat {
    if devs == [] then 0 else (if devs[0].dirty then 1 else 0) + Turns(devs[1..])
  }

  /** Device i is dirty and its statement, the one after those of the dirty devices
      before it, succeeds. */
  predicate Written(devs: seq<RmsStorageInfo>, script: seq<bool>, i: nat)
    requires i < |devs|
  {
    devs[i].dirty && Passes(script, Turns(devs[..i]))
  }

  /** The devices, with the dirty bit left only where the row is written. */
  function Sent(devs: seq<RmsStorageInfo>, script: seq<bool>): seq<RmsStorageInfo> {
    seq(|devs|, i requires 0 <= i < |devs| => devs[i].(dirty := Written(devs, script, i)))
  }

  /** The devices after the flush: dirty where a statement failed. */
  function Kept(devs: seq<RmsStorageInfo>, script: seq<bool>): seq<RmsStorageInfo> {
    seq(|devs|, i requires 0 <= i < |devs| => devs[i].(dirty := devs[i].dirty && !Written(devs, script, i)))
  }

  lemma WrittenTail(devs: seq<RmsStorageInfo>, script: seq<bool>, i: nat)
    requires 0 < i < |devs|
    ensures Written(devs, script, i) == Written(devs[1..], Drop(script, if devs[0].dirty then 1 else 0), i - 1)
  {
    assert devs[..i][1..] == devs[1..][..i - 1];
  }

  /** The flush under any outcomes of its statements. */
  lemma {:induction false} FlushUnder(devs: seq<RmsStorageInfo>, t: Tables)
    requires DistinctIds(devs) && PositiveIds(t.storage)
    ensures var (devs', t') := Flush(devs, t);
            && devs' == Kept(devs, t.script) && t'.script == Drop(t.script, Turns(devs)) && t'.computers == t.computers
            && |t'.storage| == |t.storage| && StorageIds(t'.storage) == StorageIds(t.storage)
            && forall k :: 0 <= k < |t.storage| ==> FlushedRow(Sent(devs, t.script), t.storage[k], t'.storage[k])
    decreases |devs|
  {
    if devs != [] {
      var (d, t1) := FlushDevice(devs[0], t);
      assert StorageIds(t1.storage) == StorageIds(t.storage);
      assert forall k :: 0 <= k < |t.storage| ==> t1.storage[k].id == StorageIds(t1.storage)[k] == t.storage[k].id;
      FlushUnder(devs[1..], t1);
      var (rest, t2) := Flush(devs[1..], t1);
      assert t1.script == Drop(t.script, if devs[0].dirty then 1 else 0);
      forall i | 0 < i < |devs| ensures Written(devs, t.script, i) == Written(devs[1..], t1.script, i - 1) {
        WrittenTail(devs, t.script, i);
      }
      assert [d] + rest == Kept(devs, t.script);
      assert Sent(devs, t.script)[1..] == Sent(devs[1..], t1.script);
      forall k | 0 <= k < |t.storage| ensures FlushedRow(Sent(devs, t.script), t.storage[k], t2.storage[k]) {
        FlushFirst(Sent(devs, t.script), t.storage[k], t1.storage[k], t2.storage[k]);
      }
    }
  }

  /** With successful statements. */
  lemma FlushAt(devs: seq<RmsStorageInfo>, t: Tables)
    requires t.script == [] && DistinctIds(devs) && PositiveIds(t.storage)
    ensures var (devs', t') := Flush(devs, t);
            && devs' == Cleaned(devs) && t'.script == [] && t'.computers == t.computers
            && |t'.storage| == |t.storage| && StorageIds(t'.storage) == StorageIds(t.storage)
            && forall k :: 0 <= k < |t.storage| ==> FlushedRow(devs, t.storage[k], t'.storage[k])
  {
    FlushUnder(devs, t);
    assert Sent(devs, []) == devs && Kept(devs, []) == Cleaned(devs);
  }

  lemma FlushFirst(devs: seq<RmsStorageInfo>, r: StorageRow, r1: StorageRow, r2: StorageRow)
    requires devs != [] && DistinctIds(devs) && r.id > 0
    requires r1 == if devs[0].dirty && r.id == devs[0].id then RowFrom(r, devs[0]) else r
    requires FlushedRow(devs[1..], r1, r2)
    ensures FlushedRow(devs, r, r2)
  {
    forall i | 0 <= i < |devs| && devs[i].id == r.id
      ensures r2 == if devs[i].dirty then RowFrom(r, devs[i]) else r
    {
      if i > 0 {
        assert devs[1..][i - 1] == devs[i];
      } else {
        assert forall j :: 0 <= j < |devs[1..]| ==> devs[1..][j] == devs[j + 1];
      }
    }
    if forall i :: 0 <= i < |devs| ==> devs[i].id != r.id {
      assert forall j :: 0 <= j < |devs[1..]| ==> devs[1..][j] == devs[j + 1];
    }
  }

  /** The row that a report entry asks for. */
  function Target(r: StorageRow, s: StorageInfo): StorageRow {
    r.(free := s.free, total := s.total, connected := true, mountPoint := s.mountPoint, fsType := s.fsType)
  }

  /** The entry in the row, column by column; the keys are as before. */
  predicate ShowsEntry(before: StorageRow, after: StorageRow, s: StorageInfo) {
    && after.free == s.free && after.total == s.total && after.connected
    && after.mountPoint == s.mountPoint && after.fsType == s.fsType
    && after.id == before.id && after.computerId == before.computerId && after.devPath == before.devPath
  }

  /** One entry taken by a device: it is dirty exactly if some field differs. */
  lemma TakenIsDirty(d: RmsStorageInfo, s: StorageInfo)
    requires s.dev == d.devPath
    ensures MergeAll([d], [s]) == [Taken(d, s)]
    ensures Taken(d, s).dirty <==> d.fsType != s.fsType || d.mountPoint != s.mountPoint || d.free != s.free || d.total != s.total
    ensures Taken(d, s).(dirty := d.dirty, connected := d.connected) ==
            d.(fsType := s.fsType, mountPoint := s.mountPoint, free := s.free, total := s.total)
    ensures Taken(d, s).connected
  {
    assert [s][1..] == [] && Merge([d], s) == [Taken(d, s)] + [d][1..];
  }

  // ---------- sendSysInfo ----------

  /** A computer and the tables between two calls. */
  ghost predicate Settled(c: Computer, t: Tables) {
    && c.id != -1 && DistinctPaths(c.devs) && DistinctIds(c.devs)
    && TablesOk(t) && HasComputer(t.computers, c.id)
  }

  ghost predicate SessionOk(c: Computer, t: Tables) {
    Settled(c, t) && t.script == []
  }

  lemma PositiveStorage(t: Tables)
    requires TablesOk(t)
    ensures PositiveIds(t.storage)
  {
    forall k | 0 <= k < |t.storage| ensures t.storage[k].id > 0 {
      assert StorageIds(t.storage)[k] == t.storage[k].id;
    }
  }

  lemma HasComputerKept(rows: seq<ComputerRow>, rows': seq<ComputerRow>, id: int)
    requires ComputerIds(rows) == ComputerIds(rows') && HasComputer(rows, id)
    ensures HasComputer(rows', id)
  {
    var i :| 0 <= i < |rows| && rows[i].id == id;
    assert |ComputerIds(rows)| == |rows| && |ComputerIds(rows')| == |rows'|;
    assert ComputerIds(rows)[i] == ComputerIds(rows')[i] == rows'[i].id;
  }

  lemma MergedIds(devs: seq<RmsStorageInfo>, report: seq<StorageInfo>)
    requires DistinctPaths(devs) && DistinctIds(devs)
    ensures DistinctIds(MergeAll(devs, report))
  {
    MergeAllAt(devs, report);
    var devs' := MergeAll(devs, report);
    forall i, j | 0 <= i < j < |devs'| && devs'[i].id != -1 ensures devs'[i].id != devs'[j].id {
      TrackId(devs[i], Entries(report, devs[i].devPath));
      if j < |devs| {
        TrackId(devs[j], Entries(report, devs[j].devPath));
      }
    }
  }

  /** The outcomes that are left for the devices, after the computer's own statement. */
  function DeviceScript(c: Computer, report: SystemInfo, script: seq<bool>): seq<bool> {
    Drop(script, if SameSys(c.sys, report) then 0 else 1)
  }

  /** sendSysInfo under any outcomes of its statements. */
  lemma SendSysUnder(c: Computer, report: SystemInfo, t: Tables)
    requires Settled(c, t)
    ensures var (c', t') := SendSys(c, report, t);
            var merged, script := MergeAll(c.devs, report.storage), DeviceScript(c, report, t.script);
            && Settled(c', t') && c'.id == c.id && c'.sys == report.(storage := [])
            && c'.dirty == (!SameSys(c.sys, report) && !Passes(t.script, 0))
            && c'.devs == Kept(merged, script)
            && t'.script == Drop(script, Turns(merged))
            && t'.computers == (if SameSys(c.sys, report) || !Passes(t.script, 0) then t.computers else UpdateComputer(t.computers, RowOf(c.id, report)))
            && |t'.storage| == |t.storage| && StorageIds(t'.storage) == StorageIds(t.storage)
            && forall k :: 0 <= k < |t.storage| ==> FlushedRow(Sent(merged, script), t.storage[k], t'.storage[k])
  {
    var c1 := SetSys(c, report);
    MergeAllAt(c.devs, report.storage);
    MergedIds(c.devs, report.storage);
    PositiveStorage(t);
    var (c2, t2) := FlushSys(c1, t);
    assert RowOf(c.id, c1.sys) == RowOf(c.id, report);
    assert t2.storage == t.storage && t2.script == DeviceScript(c, report, t.script);
    FlushUnder(c1.devs, t2);
    HasComputerKept(t.computers, t2.computers, c.id);
  }

  /** With successful statements the merged list is flushed, and all is clean. */
  lemma SendSysParts(c: Computer, report: SystemInfo, t: Tables)
    requires SessionOk(c, t)
    ensures var (c', t') := SendSys(c, report, t);
            var merged := MergeAll(c.devs, report.storage);
            && SessionOk(c', t') && c'.id == c.id && !c'.dirty && c'.sys == report.(storage := [])
            && c'.devs == Cleaned(merged)
            && t'.computers == (if SameSys(c.sys, report) then t.computers else UpdateComputer(t.computers, RowOf(c.id, report)))
            && |t'.storage| == |t.storage| && StorageIds(t'.storage) == StorageIds(t.storage)
            && forall k :: 0 <= k < |t.storage| ==> FlushedRow(merged, t.storage[k], t'.storage[k])
  {
    SendSysUnder(c, report, t);
    var merged := MergeAll(c.devs, report.storage);
    assert Sent(merged, []) == merged && Kept(merged, []) == Cleaned(merged);
  }

  /** Does the statement of device i succeed, if the report makes it dirty? */
  predicate Reaches(c: Computer, report: SystemInfo, script: seq<bool>, i: nat)
    requires i < |MergeAll(c.devs, report.storage)|
  {
    Passes(DeviceScript(c, report, script), Turns(MergeAll(c.devs, report.storage)[..i]))
  }

  /** A row of a device with reported entries es, before (r) and after (r'). */
  lemma RowOfTracked(d: RmsStorageInfo, es: seq<StorageInfo>, sent: bool, r: StorageRow, r': StorageRow)
    requires |es| > 0 && forall e <- es :: e.dev == d.devPath
    requires r' == if Track(d, es).dirty && sent then RowFrom(r, Track(d, es)) else r
    ensures Track(d, es).dirty == !Unchanged(d, es)
    ensures var goal := Target(r, es[|es| - 1]);
            (r' == goal <==> (!Unchanged(d, es) && sent) || r == goal) && (r' == goal || r' == r)
  {
    TrackLast(d, es);
  }

  /** Device i and its row k after a sendSysInfo, under any outcomes. */
  lemma TrackedUnder(c: Computer, report: SystemInfo, t: Tables, i: nat, k: nat)
    requires Settled(c, t) && i < |c.devs| && k < |t.storage| && t.storage[k].id == c.devs[i].id
    ensures |SendSys(c, report, t).1.storage| == |t.storage|
    ensures |SendSys(c, report, t).0.devs| == |MergeAll(c.devs, report.storage)| >= |c.devs|
    ensures var m, sent := Track(c.devs[i], Entries(report.storage, c.devs[i].devPath)), Reaches(c, report, t.script, i);
            && SendSys(c, report, t).0.devs[i] == m.(dirty := m.dirty && !sent)
            && SendSys(c, report, t).1.storage[k] == if m.dirty && sent then RowFrom(t.storage[k], m) else t.storage[k]
  {
    SendSysUnder(c, report, t);
    MergeAllAt(c.devs, report.storage);
    var es := Entries(report.storage, c.devs[i].devPath);
    var merged, script := MergeAll(c.devs, report.storage), DeviceScript(c, report, t.script);
    assert merged[i] == Track(c.devs[i], es);
    TrackId(c.devs[i], es);
    assert FlushedRow(Sent(merged, script), t.storage[k], SendSys(c, report, t).1.storage[k]);
    assert Sent(merged, script)[i].id == t.storage[k].id;
  }

  /** Row k of device i after a sendSysInfo, under any outcomes: exactly when does it
      show the last entry reported for the device's path, and when is the device dirty? */
  lemma DeviceRowUnder(c: Computer, report: SystemInfo, t: Tables, i: nat, k: nat)
    requires Settled(c, t) && i < |c.devs| && k < |t.storage| && t.storage[k].id == c.devs[i].id
    ensures |SendSys(c, report, t).1.storage| == |t.storage| && |MergeAll(c.devs, report.storage)| >= |c.devs|
    ensures |SendSys(c, report, t).0.devs| >= |c.devs|
    ensures var d, r, sent := c.devs[i], t.storage[k], Reaches(c, report, t.script, i);
            var d', r' := SendSys(c, report, t).0.devs[i], SendSys(c, report, t).1.storage[k];
            var es := Entries(report.storage, d.devPath);
            && (|es| == 0 ==> (r' == if d.dirty && sent then RowFrom(r, d) else r) && d' == d.(dirty := d.dirty && !sent))
            && (|es| > 0 ==> var goal := Target(r, es[|es| - 1]);
                  && (r' == goal <==> (!Unchanged(d, es) && sent) || r == goal) && (r' == goal || r' == r)
                  && d' == Track(d, es).(dirty := !Unchanged(d, es) && !sent))
  {
    TrackedUnder(c, report, t, i, k);
    var d, es := c.devs[i], Entries(report.storage, c.devs[i].devPath);
    if |es| > 0 {
      RowOfTracked(d, es, Reaches(c, report, t.script, i), t.storage[k], SendSys(c, report, t).1.storage[k]);
    }
  }

  /** With successful statements. */
  lemma DeviceRowAfterReport(c: Computer, report: SystemInfo, t: Tables, i: nat, k: nat)
    requires SessionOk(c, t) && i < |c.devs| && k < |t.storage| && t.storage[k].id == c.devs[i].id
    ensures |SendSys(c, report, t).1.storage| == |t.storage|
    ensures var d, r := c.devs[i], t.storage[k];
            var r' := SendSys(c, report, t).1.storage[k];
            var es := Entries(report.storage, d.devPath);
            && (|es| == 0 ==> r' == if d.dirty then RowFrom(r, d) else r)
            && (|es| > 0 ==> var goal := Target(r, es[|es| - 1]);
                  (r' == goal <==> !Unchanged(d, es) || r == goal) && (r' == goal || r' == r))
  {
    DeviceRowUnder(c, report, t, i, k);
  }
}
