/** Which computer row a handshake ends at, and what it adds to the tables. */
module Identities {
  import opened Wire
  import opened Text
  import opened Version
  import opened Scripts
  import opened Database
  import opened Computers
  import opened Reconciliation
  import opened WriteBack
  import opened Handshakes

  // ---------- what a session keeps ----------

  lemma SendSysTidy(c: Computer, report: SystemInfo, t: Tables)
    requires SessionOk(c, t) && Tidy(t)
    ensures Tidy(SendSys(c, report, t).1)
    ensures ComputerIds(SendSys(c, report, t).1.computers) == ComputerIds(t.computers)
  {
    SendSysParts(c, report, t);
    var t' := SendSys(c, report, t).1;
    forall k | 0 <= k < |t.storage|
      ensures t'.storage[k].computerId == t.storage[k].computerId && t'.storage[k].devPath == t.storage[k].devPath
    {
      assert FlushedRow(MergeAll(c.devs, report.storage), t.storage[k], t'.storage[k]);
    }
    forall k | 0 <= k < |t'.storage| ensures HasComputer(t'.computers, t'.storage[k].computerId) {
      HasComputerKept(t.computers, t'.computers, t.storage[k].computerId);
    }
  }

  // ---------- inserting ----------

  lemma {:induction false} AddDevicesAt(devs: seq<RmsStorageInfo>, computerId: int, t: Tables)
    requires t.script == [] && IdsIncrease(StorageIds(t.storage))
    ensures var (devs', t') := AddDevices(devs, computerId, t);
            && t'.script == [] && t'.computers == t.computers && IdsIncrease(StorageIds(t'.storage))
            && |devs'| == |devs| && |t'.storage| == |t.storage| + |devs|
            && t.storage <= t'.storage
            && forall i :: 0 <= i < |devs| ==>
                 devs'[i] == devs[i].(id := devs'[i].id, dirty := false)
                 && t'.storage[|t.storage| + i] == StorageRowOf(devs'[i].id, computerId, devs[i])
    decreases |devs|
  {
    if devs != [] {
      var (d, t1) := AddDevice(devs[0], computerId, t);
      FreshIncreases(StorageIds(t.storage));
      assert StorageIds(t1.storage) == StorageIds(t.storage) + [FreshId(StorageIds(t.storage))];
      AddDevicesAt(devs[1..], computerId, t1);
      var (rest, t2) := AddDevices(devs[1..], computerId, t1);
      forall i | 0 <= i < |devs|
        ensures ([d] + rest)[i] == devs[i].(id := ([d] + rest)[i].id, dirty := false)
        ensures t2.storage[|t.storage| + i] == StorageRowOf(([d] + rest)[i].id, computerId, devs[i])
      {
        if i > 0 {
          assert devs[1..][i - 1] == devs[i];
          assert t2.storage[|t1.storage| + (i - 1)] == StorageRowOf(rest[i - 1].id, computerId, devs[i]);
        } else {
          assert t2.storage[|t.storage|] == t1.storage[|t.storage|];
        }
      }
    }
  }

  /** What the i-th insert has made of device i. */
  ghost predicate AddedOrNot(rows: seq<StorageRow>, rows': seq<StorageRow>, computerId: int, d: RmsStorageInfo, d': RmsStorageInfo, passes: bool) {
    if passes then NewRow(rows, rows', computerId, d, d') else d' == d.(dirty := true)
  }

  /** The inserts of addToDB under any outcomes: device i has the i-th statement. It gets
      a row of its own, and is clean, or keeps its id and is dirty; the rows of others
      stay as they are. */
  lemma {:induction false} AddDevicesUnder(devs: seq<RmsStorageInfo>, computerId: int, t: Tables)
    requires IdsIncrease(StorageIds(t.storage))
    ensures var (devs', t') := AddDevices(devs, computerId, t);
            && |devs'| == |devs| && t'.script == Drop(t.script, |devs|)
            && t.storage <= t'.storage && IdsIncrease(StorageIds(t'.storage))
            && forall i :: 0 <= i < |devs| ==> AddedOrNot(t.storage, t'.storage, computerId, devs[i], devs'[i], Passes(t.script, i))
    decreases |devs|
  {
    if devs != [] {
      var (d, t1) := AddDevice(devs[0], computerId, t);
      OneInsert(devs[0], computerId, t);
      AddDevicesUnder(devs[1..], computerId, t1);
      var (rest, t2) := AddDevices(devs[1..], computerId, t1);
      DropNext(t.script, |devs| - 1);
      OneMoreAdded(devs, d, rest, t.storage, t1.storage, t2.storage, computerId, t.script);
    }
  }

  lemma OneMoreAdded(devs: seq<RmsStorageInfo>, d: RmsStorageInfo, rest: seq<RmsStorageInfo>, rows: seq<StorageRow>,
                     rows1: seq<StorageRow>, rows2: seq<StorageRow>, computerId: int, script: seq<bool>)
    requires |devs| == |rest| + 1 && rows <= rows1 <= rows2
    requires AddedOrNot(rows, rows1, computerId, devs[0], d, Passes(script, 0))
    requires forall i :: 0 <= i < |rest| ==> AddedOrNot(rows1, rows2, computerId, devs[1..][i], rest[i], Passes(Drop(script, 1), i))
    ensures forall i :: 0 <= i < |devs| ==> AddedOrNot(rows, rows2, computerId, devs[i], ([d] + rest)[i], Passes(script, i))
  {
    forall i | 0 <= i < |devs| ensures AddedOrNot(rows, rows2, computerId, devs[i], ([d] + rest)[i], Passes(script, i)) {
      if i == 0 {
        FirstStays(rows, rows1, rows2, computerId, devs[0], d, Passes(script, 0));
      } else {
        DropNext(script, i - 1);
        assert devs[1..][i - 1] == devs[i];
        LaterRow(rows, rows1, rows2, computerId, devs[i], rest[i - 1], Passes(script, i));
      }
    }
  }

  lemma OneInsert(d: RmsStorageInfo, computerId: int, t: Tables)
    requires IdsIncrease(StorageIds(t.storage))
    ensures var (d', t') := AddDevice(d, computerId, t);
            && t'.script == Drop(t.script, 1) && t'.computers == t.computers && t.storage <= t'.storage
            && IdsIncrease(StorageIds(t'.storage)) && AddedOrNot(t.storage, t'.storage, computerId, d, d', Passes(t.script, 0))
  {
    var ids := StorageIds(t.storage);
    FreshIncreases(ids);
    var t' := AddDevice(d, computerId, t).1;
    if Passes(t.script, 0) {
      assert StorageIds(t'.storage) == ids + [FreshId(ids)];
      assert HoldsDevice(t'.storage[|t.storage|], computerId, AddDevice(d, computerId, t).0);
    }
  }

  lemma FirstStays(rows: seq<StorageRow>, rows1: seq<StorageRow>, rows2: seq<StorageRow>, computerId: int,
                   d: RmsStorageInfo, d': RmsStorageInfo, passes: bool)
    requires rows1 <= rows2 && AddedOrNot(rows, rows1, computerId, d, d', passes)
    ensures AddedOrNot(rows, rows2, computerId, d, d', passes)
  {
    if passes {
      var k :| |rows| <= k < |rows1| && HoldsDevice(rows1[k], computerId, d');
      assert HoldsDevice(rows2[k], computerId, d');
    }
  }

  /** A new row, after the old ones, holds the device, which is clean and knows its id. */
  ghost predicate NewRow(rows: seq<StorageRow>, rows': seq<StorageRow>, computerId: int, d: RmsStorageInfo, d': RmsStorageInfo) {
    && d' == d.(id := d'.id, dirty := false)
    && exists k :: |rows| <= k < |rows'| && HoldsDevice(rows'[k], computerId, d')
  }

  lemma LaterRow(rows: seq<StorageRow>, rows1: seq<StorageRow>, rows2: seq<StorageRow>, computerId: int,
                 d: RmsStorageInfo, d': RmsStorageInfo, passes: bool)
    requires |rows| <= |rows1| && AddedOrNot(rows1, rows2, computerId, d, d', passes)
    ensures AddedOrNot(rows, rows2, computerId, d, d', passes)
  {
    if passes {
      var k :| |rows1| <= k < |rows2| && HoldsDevice(rows2[k], computerId, d');
    }
  }

  predicate HoldsDevice(row: StorageRow, computerId: int, d: RmsStorageInfo) {
    && row.id == d.id && row.computerId == computerId && row.devPath == d.devPath && row.fsType == d.fsType
    && row.mountPoint == d.mountPoint && row.free == d.free && row.total == d.total && row.connected
  }

  /** addToDB under any outcomes: without the computer's row nothing else is tried. */
  lemma AddUnder(c: Computer, t: Tables)
    ensures var (c', t') := Add(c, t);
            if Passes(t.script, 0) then
              && c'.id == FreshId(ComputerIds(t.computers)) && t'.computers == t.computers + [InsertedRow(c'.id, c.sys)]
              && (c'.devs, t') == AddDevices(c.devs, c'.id, t.(script := Drop(t.script, 1), computers := t'.computers))
            else c' == c && t' == t.(script := Drop(t.script, 1))
  {
    if Passes(t.script, 0) {
      var id := FreshId(ComputerIds(t.computers));
      AddsNoComputer(c.devs, id, t.(script := Drop(t.script, 1), computers := t.computers + [InsertedRow(id, c.sys)]));
    }
  }

  lemma {:induction false} AddsNoComputer(devs: seq<RmsStorageInfo>, computerId: int, t: Tables)
    ensures AddDevices(devs, computerId, t).1.computers == t.computers
    decreases |devs|
  {
    if devs != [] {
      AddsNoComputer(devs[1..], computerId, AddDevice(devs[0], computerId, t).1);
    }
  }

  /** addToDB with successful statements turned (c, t) into (c', t'). */
  ghost predicate Added(c: Computer, t: Tables, c': Computer, t': Tables) {
    && Tidy(t') && t'.script == [] && c'.id > 0 && !HasComputer(t.computers, c'.id)
    && c'.id == FreshId(ComputerIds(t.computers))
    && t'.computers == t.computers + [InsertedRow(c'.id, c.sys)]
    && c'.sys == c.sys && c'.dirty == c.dirty
    && t.storage <= t'.storage && Stored(c.devs, c'.devs, c'.id, t'.storage, |t.storage|)
  }

  /** From row n on, the storage table holds a row for every device, which knows its id. */
  ghost predicate Stored(devs: seq<RmsStorageInfo>, devs': seq<RmsStorageInfo>, computerId: int, rows: seq<StorageRow>, n: nat) {
    && |devs'| == |devs| && |rows| == n + |devs|
    && (forall i :: 0 <= i < |devs| ==> devs'[i] == devs[i].(id := devs'[i].id, dirty := false))
    && (forall i :: 0 <= i < |devs| ==> rows[n + i] == StorageRowOf(devs'[i].id, computerId, devs[i]))
  }

  lemma AddParts(c: Computer, t: Tables)
    requires Tidy(t) && t.script == [] && DistinctPaths(c.devs)
    ensures Added(c, t, Add(c, t).0, Add(c, t).1)
  {
    var ids := ComputerIds(t.computers);
    var id := FreshId(ids);
    FreshIncreases(ids);
    var t1 := t.(computers := t.computers + [InsertedRow(id, c.sys)]);
    assert ComputerIds(t1.computers) == ids + [id];
    AddDevicesAt(c.devs, id, t1);
    var (devs, t2) := AddDevices(c.devs, id, t1);
    assert Add(c, t) == (c.(id := id, devs := devs), t2);
    FreshComputer(t.computers);
    assert t2.computers[|t.computers|].id == id;
    AddedTidy(t, t2, id, c.devs, devs);
  }

  lemma FreshComputer(rows: seq<ComputerRow>)
    requires IdsIncrease(ComputerIds(rows))
    ensures !HasComputer(rows, FreshId(ComputerIds(rows)))
  {
    assert forall i :: 0 <= i < |rows| ==> ComputerIds(rows)[i] == rows[i].id;
  }

  lemma AddedTidy(t: Tables, t2: Tables, id: int, devs: seq<RmsStorageInfo>, devs': seq<RmsStorageInfo>)
    requires Tidy(t) && !HasComputer(t.computers, id) && DistinctPaths(devs)
    requires t.computers <= t2.computers && HasComputer(t2.computers, id)
    requires t.storage <= t2.storage && |t2.storage| == |t.storage| + |devs|
    requires |devs'| == |devs|
    requires forall i :: 0 <= i < |devs| ==> t2.storage[|t.storage| + i] == StorageRowOf(devs'[i].id, id, devs[i])
    ensures PathsDistinct(t2.storage) && ForeignKeys(t2)
  {
    forall i | |t.storage| <= i < |t2.storage|
      ensures t2.storage[i].computerId == id && t2.storage[i].devPath == devs[i - |t.storage|].devPath
    {
      assert t2.storage[|t.storage| + (i - |t.storage|)] == StorageRowOf(devs'[i - |t.storage|].id, id, devs[i - |t.storage|]);
    }
    forall k | 0 <= k < |t2.storage| ensures HasComputer(t2.computers, t2.storage[k].computerId) {
      if k < |t.storage| {
        assert HasComputer(t.computers, t.storage[k].computerId);
        var i :| 0 <= i < |t.computers| && t.computers[i].id == t.storage[k].computerId;
        assert t2.computers[i].id == t2.storage[k].computerId;
      }
    }
    forall i, j | 0 <= i < j < |t2.storage| && t2.storage[i].computerId == t2.storage[j].computerId
      ensures t2.storage[i].devPath != t2.storage[j].devPath
    {
      if i < |t.storage| {
        assert HasComputer(t.computers, t.storage[i].computerId);
      }
    }
  }

  // ---------- the three kinds of handshake ----------

  /** A reporter without an id. The new row shows the report exactly when the two
      leading numbers of the client version agree. */
  lemma FirstHandshake(report: SystemInfo, t: Tables, junk: Junk)
    requires Tidy(t) && t.script == [] && SysFits(report)
    ensures var (c', t') := Handshake(-1, report, t, junk);
            && Tidy(t') && t'.script == [] && c'.id > 0 && !HasComputer(t.computers, c'.id)
            && c'.id == FreshId(ComputerIds(t.computers))
            && |t'.computers| == |t.computers| + 1 && t.computers <= t'.computers
            && t'.computers[|t.computers|].id == c'.id
            && t'.computers[|t.computers|] == InsertedRow(c'.id, report)
            && HasColumns(t'.computers[|t.computers|], c'.id, report, report.clientVersion.(minor := report.clientVersion.major))
            && (t'.computers[|t.computers|] == RowOf(c'.id, report) <==> report.clientVersion.major == report.clientVersion.minor)
            && t.storage <= t'.storage && Stored(MergeAll([], report.storage), c'.devs, c'.id, t'.storage, |t.storage|)
            && (forall i :: 0 <= i < |c'.devs| ==>
                  InSync(c'.devs[i], t'.storage) && t'.storage[|t.storage| + i].id == c'.devs[i].id)
  {
    var c := SetSys(NewComputer(-1), report);
    MergeAllAt([], report.storage);
    MergedConnected([], report.storage);
    AddParts(c, t);
    var (c', t') := Add(c, t);
    var v := report.clientVersion;
    assert RowOf(c'.id, c.sys) == RowOf(c'.id, report);
    RowColumns(c'.id, report);
    assert t'.computers[|t.computers|] == InsertedRow(c'.id, report);
    if InsertedRow(c'.id, report) == RowOf(c'.id, report) {
      PrintInjective(v, VersionData(v.major, v.major, v.release));
    }
    forall i | 0 <= i < |c'.devs| ensures InSync(c'.devs[i], t'.storage) {
      StoredInSync(c.devs, c'.devs, c'.id, t'.storage, |t.storage|, i);
    }
  }

  /** Client version 2.0.0 is inserted as 2.2.0. */
  lemma MajorPrintedTwice(report: SystemInfo, t: Tables, junk: Junk)
    requires report == EMPTY_SYS.(clientVersion := VersionData(2, 0, 0)) && t == Tables([], [], [])
    ensures |Handshake(-1, report, t, junk).1.computers| == 1
    ensures Handshake(-1, report, t, junk).1.computers[0].clientVersion == "2.2.0"
    ensures Handshake(-1, report, t, junk).1.computers[0] != RowOf(Handshake(-1, report, t, junk).0.id, report)
  {
    FirstHandshake(report, t, junk);
    PrintSample();
  }

  /** The new storage rows, column by column: the last entry for each reported path. */
  lemma FirstRows(id: int, report: SystemInfo, t: Tables, junk: Junk, k: nat)
    requires Tidy(t) && t.script == [] && SysFits(report) && id == -1
    requires |t.storage| <= k < |Handshake(id, report, t, junk).1.storage|
    ensures RowShowsLast(Handshake(id, report, t, junk).1.storage[k], Handshake(id, report, t, junk).0.id, report.storage)
  {
    FirstHandshake(report, t, junk);
    var (c', t') := Handshake(id, report, t, junk);
    StoredShowsLast(report.storage, c'.devs, c'.id, t'.storage, |t.storage|, k);
  }

  lemma StoredShowsLast(report: seq<StorageInfo>, devs': seq<RmsStorageInfo>, computerId: int, rows: seq<StorageRow>, n: nat, k: nat)
    requires Stored(MergeAll([], report), devs', computerId, rows, n) && n <= k < |rows|
    ensures RowShowsLast(rows[k], computerId, report)
  {
    FirstDevices(report);
    var devs := MergeAll([], report);
    StoredRow(devs, devs', computerId, rows, n, k - n);
    assert ShowsLast(devs[k - n], report);
  }

  lemma StoredRow(devs: seq<RmsStorageInfo>, devs': seq<RmsStorageInfo>, computerId: int, rows: seq<StorageRow>, n: nat, i: nat)
    requires Stored(devs, devs', computerId, rows, n) && i < |devs|
    ensures rows[n + i] == StorageRowOf(devs'[i].id, computerId, devs[i])
  {
  }

  /** The devices of a first report: each reported path has one, and it holds the last
      entry for the path. */
  lemma FirstDevices(report: seq<StorageInfo>)
    ensures DistinctPaths(MergeAll([], report))
    ensures forall i :: 0 <= i < |MergeAll([], report)| ==> ShowsLast(MergeAll([], report)[i], report)
    ensures forall e <- report :: exists i :: 0 <= i < |MergeAll([], report)| && MergeAll([], report)[i].devPath == e.dev
  {
    MergeAllAt([], report);
    forall i | 0 <= i < |MergeAll([], report)| ensures ShowsLast(MergeAll([], report)[i], report) {
      MergedShows([], report, i);
    }
    forall e | e in report
      ensures exists i :: 0 <= i < |MergeAll([], report)| && MergeAll([], report)[i].devPath == e.dev
    {
      var i := MergedCovers([], report, e.dev);
    }
  }

  /** A storage row, column by column: the last entry that was reported for its path. */
  predicate RowShowsLast(row: StorageRow, computerId: int, report: seq<StorageInfo>) {
    var es := Entries(report, row.devPath);
    es != [] && var last := es[|es| - 1];
                && row.computerId == computerId && row.connected && row.fsType == last.fsType
                && row.mountPoint == last.mountPoint && row.free == last.free && row.total == last.total
  }

  predicate ShowsLast(d: RmsStorageInfo, report: seq<StorageInfo>) {
    var es := Entries(report, d.devPath);
    es != [] && var last := es[|es| - 1];
                d.fsType == last.fsType && d.mountPoint == last.mountPoint && d.free == last.free && d.total == last.total
  }

  lemma {:induction false} MergedShows(devs: seq<RmsStorageInfo>, report: seq<StorageInfo>, i: nat)
    requires DistinctPaths(devs) && i < |MergeAll(devs, report)|
    requires i < |devs| ==> Entries(report, devs[i].devPath) != []
    ensures ShowsLast(MergeAll(devs, report)[i], report)
    decreases |report|
  {
    if i < |devs| {
      KnownShows(devs, report, i);
    } else {
      var devs1 := Merge(devs, report[0]);
      MergeAt(devs, report[0]);
      if i < |devs1| && Entries(report[1..], devs1[i].devPath) == [] {
        StaysAsIs(devs1, report[1..], i);
        NewShows(report, devs1[i]);
      } else {
        MergedShows(devs1, report[1..], i);
        LastStays(report, MergeAll(devs1, report[1..])[i].devPath);
      }
    }
  }

  lemma KnownShows(devs: seq<RmsStorageInfo>, report: seq<StorageInfo>, i: nat)
    requires DistinctPaths(devs) && i < |devs| && Entries(report, devs[i].devPath) != []
    ensures i < |MergeAll(devs, report)| && ShowsLast(MergeAll(devs, report)[i], report)
  {
    MergeAllAt(devs, report);
    TrackLast(devs[i], Entries(report, devs[i].devPath));
  }

  lemma StaysAsIs(devs: seq<RmsStorageInfo>, report: seq<StorageInfo>, i: nat)
    requires DistinctPaths(devs) && i < |devs| && Entries(report, devs[i].devPath) == []
    ensures i < |MergeAll(devs, report)| && MergeAll(devs, report)[i] == devs[i]
  {
    MergeAllAt(devs, report);
  }

  /** A device made from the first entry, with no other entry for its path. */
  lemma NewShows(report: seq<StorageInfo>, d: RmsStorageInfo)
    requires report != [] && d == NewDevice(report[0]) && Entries(report[1..], d.devPath) == []
    ensures ShowsLast(d, report)
  {
    var rest := Entries(report[1..], d.devPath);
    assert Entries(report, d.devPath) == [report[0]] + rest;
  }

  /** An entry in the rest of the report is the last one of the report, too. */
  lemma LastStays(report: seq<StorageInfo>, path: string)
    requires report != [] && Entries(report[1..], path) != []
    ensures var es, rest := Entries(report, path), Entries(report[1..], path);
            es != [] && es[|es| - 1] == rest[|rest| - 1]
  {
    var rest := Entries(report[1..], path);
    assert Entries(report, path) == (if report[0].dev == path then [report[0]] else []) + rest;
  }

  lemma {:induction false} MergedCovers(devs: seq<RmsStorageInfo>, report: seq<StorageInfo>, path: string) returns (i: nat)
    requires DistinctPaths(devs)
    requires (exists e <- report :: e.dev == path) || exists k :: 0 <= k < |devs| && devs[k].devPath == path
    ensures i < |MergeAll(devs, report)| && MergeAll(devs, report)[i].devPath == path
    decreases |report|
  {
    if report == [] {
      i :| i < |devs| && devs[i].devPath == path;
    } else {
      var devs1 := Merge(devs, report[0]);
      MergeAt(devs, report[0]);
      if k :| 0 <= k < |devs| && devs[k].devPath == path {
        assert devs1[k].devPath == path;
      } else if report[0].dev == path {
        MergeFinds(devs, report[0]);
      } else {
        var e :| e in report && e.dev == path;
        assert e in report[1..];
      }
      i := MergedCovers(devs1, report[1..], path);
    }
  }

  lemma {:induction false} MergeFinds(devs: seq<RmsStorageInfo>, s: StorageInfo)
    ensures exists k :: 0 <= k < |Merge(devs, s)| && Merge(devs, s)[k].devPath == s.dev
    decreases |devs|
  {
    if devs == [] || devs[0].devPath == s.dev {
      assert Merge(devs, s)[0].devPath == s.dev;
    } else {
      MergeFinds(devs[1..], s);
      var k :| 0 <= k < |Merge(devs[1..], s)| && Merge(devs[1..], s)[k].devPath == s.dev;
      assert Merge(devs, s)[k + 1].devPath == s.dev;
    }
  }

  lemma {:induction false} MergedConnected(devs: seq<RmsStorageInfo>, report: seq<StorageInfo>)
    requires forall i :: 0 <= i < |devs| ==> devs[i].connected
    ensures forall i :: 0 <= i < |MergeAll(devs, report)| ==> MergeAll(devs, report)[i].connected
    decreases |report|
  {
    if report != [] {
      MergeConnected(devs, report[0]);
      MergedConnected(Merge(devs, report[0]), report[1..]);
    }
  }

  lemma {:induction false} MergeConnected(devs: seq<RmsStorageInfo>, s: StorageInfo)
    requires forall i :: 0 <= i < |devs| ==> devs[i].connected
    ensures forall i :: 0 <= i < |Merge(devs, s)| ==> Merge(devs, s)[i].connected
    decreases |devs|
  {
    if devs != [] {
      MergeConnected(devs[1..], s);
    }
  }

  lemma StoredInSync(devs: seq<RmsStorageInfo>, devs': seq<RmsStorageInfo>, computerId: int, rows: seq<StorageRow>, n: nat, i: nat)
    requires Stored(devs, devs', computerId, rows, n) && IdsIncrease(StorageIds(rows))
    requires i < |devs| && devs[i].connected
    ensures InSync(devs'[i], rows)
  {
    InsertedInSync(rows, n + i, devs[i], devs'[i], computerId);
  }

  lemma InsertedInSync(rows: seq<StorageRow>, l: nat, d: RmsStorageInfo, d': RmsStorageInfo, computerId: int)
    requires IdsIncrease(StorageIds(rows)) && l < |rows| && rows[l] == StorageRowOf(d'.id, computerId, d)
    requires d' == d.(id := d'.id, dirty := false) && d.connected
    ensures InSync(d', rows)
  {
    forall k | 0 <= k < |rows| && rows[k].id == d'.id ensures rows[k] == RowFrom(rows[k], d') {
      StorageKey(rows, k, l);
    }
  }

  lemma StorageKey(rows: seq<StorageRow>, k: nat, l: nat)
    requires IdsIncrease(StorageIds(rows)) && k < |rows| && l < |rows| && rows[k].id == rows[l].id
    ensures k == l
  {
    assert StorageIds(rows)[k] == rows[k].id && StorageIds(rows)[l] == rows[l].id;
  }

  /** getFromDB adds an unknown computer without devices. */
  lemma FetchUnknown(id: int, t: Tables, junk: Junk)
    requires Tidy(t) && t.script == [] && id != -1 && !HasComputer(t.computers, id)
    ensures var (c1, t1) := Fetch(NewComputer(id), t, junk);
            && SessionOk(c1, t1) && Tidy(t1) && c1.sys == EMPTY_SYS && c1.devs == []
            && c1.id == FreshId(ComputerIds(t.computers)) > 0 && !HasComputer(t.computers, c1.id)
            && ComputerIds(t1.computers) == ComputerIds(t.computers) + [c1.id]
            && t1.computers[|t.computers|] == InsertedRow(c1.id, EMPTY_SYS)
            && t1.storage == t.storage
  {
    assert SelectComputer(t.computers, id) == [];
    AddParts(NewComputer(id), t);
    var (c1, t1) := Add(NewComputer(id), t);
    assert Fetch(NewComputer(id), t, junk) == (c1, t1);
    assert t1.computers[|t.computers|].id == c1.id;
    assert ComputerIds(t1.computers) == ComputerIds(t.computers) + [c1.id];
  }

  /** A reporter whose id has no row: it gets a new row, which shows the report, and
      none of its devices gets one. */
  lemma UnknownHandshake(id: int, report: SystemInfo, t: Tables, junk: Junk)
    requires Tidy(t) && t.script == [] && id != -1 && !HasComputer(t.computers, id)
    ensures var (c', t') := Handshake(id, report, t, junk);
            && Tidy(t') && t'.script == [] && c'.id > 0 && !HasComputer(t.computers, c'.id)
            && c'.id == FreshId(ComputerIds(t.computers))
            && |t'.computers| == |t.computers| + 1 && ComputerIds(t'.computers) == ComputerIds(t.computers) + [c'.id]
            && t'.computers[|t.computers|] == RowOf(c'.id, report)
            && t'.storage == t.storage && SessionOk(c', t') && Unstored(c'.devs)
  {
    FetchUnknown(id, t, junk);
    var (c1, t1) := Fetch(NewComputer(id), t, junk);
    SendSysParts(c1, report, t1);
    SendSysTidy(c1, report, t1);
    EmptyRow(c1.id, report);
    NothingStored(c1, report, t1);
    assert ComputerIds(t1.computers)[|t.computers|] == c1.id;
  }

  /** No device has a row in the storage table. */
  predicate Unstored(devs: seq<RmsStorageInfo>) {
    forall i :: 0 <= i < |devs| ==> devs[i].id == -1
  }

  /** A computer whose devices have no rows writes no storage row, under any outcomes,
      and gets none. */
  lemma NothingStored(c: Computer, report: SystemInfo, t: Tables)
    requires Settled(c, t) && Unstored(c.devs)
    ensures SendSys(c, report, t).1.storage == t.storage && Unstored(SendSys(c, report, t).0.devs)
  {
    SendSysUnder(c, report, t);
    MergeAllAt(c.devs, report.storage);
    PositiveStorage(t);
    var merged, script := MergeAll(c.devs, report.storage), DeviceScript(c, report, t.script);
    forall i | 0 <= i < |merged| ensures merged[i].id == -1 {
      if i < |c.devs| {
        TrackId(c.devs[i], Entries(report.storage, c.devs[i].devPath));
      }
    }
    forall k | 0 <= k < |t.storage| ensures SendSys(c, report, t).1.storage[k] == t.storage[k] {
      assert FlushedRow(Sent(merged, script), t.storage[k], SendSys(c, report, t).1.storage[k]);
    }
  }

  /** Its devices stay out of the storage table for the whole session. */
  lemma {:induction false} NeverStored(c: Computer, reports: seq<SystemInfo>, t: Tables)
    requires Settled(c, t) && Unstored(c.devs)
    ensures Session(c, reports, t).1.storage == t.storage && Unstored(Session(c, reports, t).0.devs)
    decreases |reports|
  {
    if reports != [] {
      NothingStored(c, reports[0], t);
      SendSysUnder(c, reports[0], t);
      var (c1, t1) := SendSys(c, reports[0], t);
      NeverStored(c1, reports[1..], t1);
    }
  }

  /** A reporter whose id has no row: none of the devices that it ever reports in the
      session gets a row. */
  lemma UnknownNeverStored(id: int, report: SystemInfo, reports: seq<SystemInfo>, t: Tables, junk: Junk)
    requires Tidy(t) && t.script == [] && id != -1 && !HasComputer(t.computers, id)
    ensures var (c', t') := Handshake(id, report, t, junk);
            Session(c', reports, t').1.storage == t.storage
  {
    UnknownHandshake(id, report, t, junk);
    var (c', t') := Handshake(id, report, t, junk);
    NeverStored(c', reports, t');
  }

  lemma EmptyRow(id: int, report: SystemInfo)
    ensures SameSys(EMPTY_SYS, report) ==> InsertedRow(id, EMPTY_SYS) == RowOf(id, report)
  {
  }

  /** From (id, t) a handshake ended at row newId of t': the presented row if it
      exists, else one new row. */
  ghost predicate EndsAt(id: int, newId: int, t: Tables, t': Tables) {
    && Tidy(t') && t'.script == [] && newId > 0 && HasComputer(t'.computers, newId)
    && (if HasComputer(t.computers, id)
        then newId == id && ComputerIds(t'.computers) == ComputerIds(t.computers)
        else newId == FreshId(ComputerIds(t.computers)) && !HasComputer(t.computers, newId)
             && ComputerIds(t'.computers) == ComputerIds(t.computers) + [newId])
  }

  /** Every completed handshake ends at an existing row. */
  lemma HandshakeIdentity(id: int, report: SystemInfo, t: Tables, junk: Junk)
    requires Tidy(t) && t.script == [] && SysFits(report)
    ensures EndsAt(id, Handshake(id, report, t, junk).0.id, t, Handshake(id, report, t, junk).1)
  {
    if HasComputer(t.computers, id) {
      KnownIdentity(id, report, t, junk);
    } else if id == -1 {
      FirstHandshake(report, t, junk);
      var (c', t') := Handshake(id, report, t, junk);
      AppendedId(t.computers, t'.computers);
    } else {
      UnknownHandshake(id, report, t, junk);
      var (c', t') := Handshake(id, report, t, junk);
      assert ComputerIds(t'.computers)[|t.computers|] == c'.id;
      assert t'.computers[|t.computers|].id == c'.id;
    }
  }

  // ---------- a handshake whose queries fail ----------

  /** What getFromDB makes of a known computer under any outcomes: nothing if the first
      query fails, no devices if the second one does. */
  function LoadedUnder(row: ComputerRow, t: Tables, junk: Junk): Computer {
    if !Passes(t.script, 0) then NewComputer(row.id)
    else if !Passes(t.script, 1) then Loaded(row, t, junk).(devs := [])
    else Loaded(row, t, junk)
  }

  function QueriesLeft(script: seq<bool>): seq<bool> {
    if Passes(script, 0) then Drop(script, 2) else Drop(script, 1)
  }

  /** The handshake of a known computer under any outcomes is a report to what was
      loaded; SendSysUnder and DeviceRowUnder say what that leaves. */
  lemma HandshakeUnder(t: Tables, j: nat, report: SystemInfo, junk: Junk)
    requires Tidy(t) && j < |t.computers|
    ensures var c, t1 := LoadedUnder(t.computers[j], t, junk), t.(script := QueriesLeft(t.script));
            Settled(c, t1) && Handshake(t.computers[j].id, report, t, junk) == SendSys(c, report, t1)
  {
    var row := t.computers[j];
    PrimaryKey(t.computers, j, j);
    SelectOne(t.computers, j);
    assert HasComputer(t.computers, row.id);
    LoadedOk(t.(script := []), j, junk);
    var none: seq<RmsStorageInfo> := [];
    assert none + LoadedDevices(SelectStorage(t.storage, row.id)) == LoadedDevices(SelectStorage(t.storage, row.id));
    assert Drop(Drop(t.script, 1), 1) == Drop(t.script, 2);
  }

  /** If one of the two queries fails, no device is stored in the whole session, though
      the rows are there. */
  lemma FailedQueryNeverStores(t: Tables, j: nat, report: SystemInfo, reports: seq<SystemInfo>, junk: Junk)
    requires Tidy(t) && j < |t.computers| && !(Passes(t.script, 0) && Passes(t.script, 1))
    ensures var (c', t') := Handshake(t.computers[j].id, report, t, junk);
            t'.storage == t.storage && Session(c', reports, t').1.storage == t.storage
  {
    HandshakeUnder(t, j, report, junk);
    var c, t1 := LoadedUnder(t.computers[j], t, junk), t.(script := QueriesLeft(t.script));
    NothingStored(c, report, t1);
    SendSysUnder(c, report, t1);
    var (c', t') := SendSys(c, report, t1);
    NeverStored(c', reports, t');
  }

  /** The same for any 64-bit id: it is the narrowed one that counts, and one that
      narrows to -1, but is not -1, ends at no row and changes nothing. */
  ghost predicate PresentedEndsAt(id: int, newId: int, t: Tables, t': Tables) {
    if NarrowsToNone(id) then newId == -1 && t' == t else EndsAt(Narrow(id), newId, t, t')
  }

  lemma PresentedIdentity(id: int, report: SystemInfo, t: Tables, junk: Junk)
    requires Tidy(t) && t.script == [] && SysFits(report)
    ensures PresentedEndsAt(id, Presented(id, report, t, junk).0.id, t, Presented(id, report, t, junk).1)
  {
    if !NarrowsToNone(id) {
      HandshakeIdentity(Narrow(id), report, t, junk);
    }
  }

  lemma AppendedId(rows: seq<ComputerRow>, rows': seq<ComputerRow>)
    requires |rows'| == |rows| + 1 && rows <= rows'
    ensures ComputerIds(rows') == ComputerIds(rows) + [rows'[|rows|].id]
    ensures HasComputer(rows', rows'[|rows|].id)
  {
  }

  lemma KnownIdentity(id: int, report: SystemInfo, t: Tables, junk: Junk)
    requires Tidy(t) && t.script == [] && HasComputer(t.computers, id)
    ensures EndsAt(id, Handshake(id, report, t, junk).0.id, t, Handshake(id, report, t, junk).1)
  {
    var j :| 0 <= j < |t.computers| && t.computers[j].id == id;
    KnownHandshake(t, j, report, junk);
    var c := Loaded(t.computers[j], t, junk);
    SendSysParts(c, report, t);
    SendSysTidy(c, report, t);
    PrimaryKey(t.computers, j, j);
  }

  /** The id that a handshake returned is returned by every later one that presents
      it, whatever the reports say, and no row is added. */
  lemma {:induction false} IdentityIsStable(id: int, report: SystemInfo, later: seq<SystemInfo>, t: Tables, junk: Junk)
    requires Tidy(t) && t.script == [] && SysFits(report) && forall r <- later :: SysFits(r)
    ensures var (c', t') := Handshake(id, report, t, junk);
            var (c'', t'') := Again(c', later, t', junk);
            c''.id == c'.id && ComputerIds(t''.computers) == ComputerIds(t'.computers)
    decreases |later|
  {
    HandshakeIdentity(id, report, t, junk);
    var (c', t') := Handshake(id, report, t, junk);
    if later != [] {
      HandshakeIdentity(c'.id, later[0], t', junk);
      IdentityIsStable(c'.id, later[0], later[1..], t', junk);
    }
  }

  /** Further handshakes, each presenting the id that the one before returned. */
  function Again(c: Computer, reports: seq<SystemInfo>, t: Tables, junk: Junk): (Computer, Tables)
    decreases |reports|
  {
    if reports == [] then (c, t)
    else var (c1, t1) := Handshake(c.id, reports[0], t, junk); Again(c1, reports[1..], t1, junk)
  }
}
