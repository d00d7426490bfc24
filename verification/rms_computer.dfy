/** RmsComputer: what the server keeps about a computer, loaded from the tables,
    merged with the reports, and written back where it is dirty. */
module Computers {
  import opened Wire
  import opened Text
  import opened Version
  import opened Scripts
  import opened Database

  datatype RmsStorageInfo = RmsStorageInfo(
    id: int, devPath: string, fsType: string, mountPoint: string, free: nat, total: nat,
    connected: bool, dirty: bool)

  /** The value of the object: computer_id_, sys_info_ (its storage list is empty
      between calls), storage_info_, sys_info_dirty_. */
  datatype Computer = Computer(id: int, sys: SystemInfo, devs: seq<RmsStorageInfo>, dirty: bool)

  const NO_VERSION := VersionData(0, 0, 0)
  const EMPTY_SYS := SystemInfo("", "", NO_VERSION, NO_VERSION, CpuInfo(0, 0, X86_64, "", ""), [])

  function NewComputer(id: int): Computer { Computer(id, EMPTY_SYS, [], false) }

  // ---------- setSysInfo ----------

  predicate SameDevice(d: RmsStorageInfo, s: StorageInfo) {
    s.dev == d.devPath && d.fsType == s.fsType && d.free == s.free && d.total == s.total && d.mountPoint == s.mountPoint
  }

  /** StorageInfoToRmsStorageInfo */
  function Taken(d: RmsStorageInfo, s: StorageInfo): RmsStorageInfo {
    RmsStorageInfo(d.id, s.dev, s.fsType, s.mountPoint, s.free, s.total, true, !SameDevice(d, s))
  }

  function NewDevice(s: StorageInfo): RmsStorageInfo {
    RmsStorageInfo(-1, s.dev, s.fsType, s.mountPoint, s.free, s.total, true, true)
  }

  /** addStorageDevice: the first device with the path takes the report, else a new one does. */
  function Merge(devs: seq<RmsStorageInfo>, s: StorageInfo): seq<RmsStorageInfo> {
    if devs == [] then [NewDevice(s)]
    else if devs[0].devPath == s.dev then [Taken(devs[0], s)] + devs[1..]
    else [devs[0]] + Merge(devs[1..], s)
  }

  lemma {:induction false} MergeFound(devs: seq<RmsStorageInfo>, s: StorageInfo, i: nat)
    requires i < |devs| && devs[i].devPath == s.dev && forall k :: 0 <= k < i ==> devs[k].devPath != s.dev
    ensures Merge(devs, s) == devs[i := Taken(devs[i], s)]
    decreases |devs|
  {
    if i == 0 {
      assert [Taken(devs[0], s)] + devs[1..] == devs[0 := Taken(devs[0], s)];
    } else {
      MergeFound(devs[1..], s, i - 1);
      assert [devs[0]] + devs[1..][i - 1 := Taken(devs[i], s)] == devs[i := Taken(devs[i], s)];
    }
  }

  lemma {:induction false} MergeNew(devs: seq<RmsStorageInfo>, s: StorageInfo)
    requires forall k :: 0 <= k < |devs| ==> devs[k].devPath != s.dev
    ensures Merge(devs, s) == devs + [NewDevice(s)]
    decreases |devs|
  {
    if devs != [] {
      MergeNew(devs[1..], s);
    }
  }

  function MergeAll(devs: seq<RmsStorageInfo>, report: seq<StorageInfo>): seq<RmsStorageInfo>
    decreases |report|
  {
    if report == [] then devs else MergeAll(Merge(devs, report[0]), report[1..])
  }

  /** The fields that isSysInfoDirty compares. */
  predicate SameSys(a: SystemInfo, b: SystemInfo) {
    a.(storage := []) == b.(storage := [])
  }

  function SetSys(c: Computer, report: SystemInfo): Computer {
    Computer(c.id, report.(storage := []), MergeAll(c.devs, report.storage), !SameSys(c.sys, report))
  }

  // ---------- updateDB ----------

  /** What RMS_DB_UPDATE_STORAGE_TABLE makes of a row with the device's id. */
  function RowFrom(r: StorageRow, d: RmsStorageInfo): StorageRow {
    r.(free := d.free, total := d.total, connected := d.connected, mountPoint := d.mountPoint, fsType := d.fsType)
  }

  function UpdateStorage(rows: seq<StorageRow>, d: RmsStorageInfo): (r: seq<StorageRow>)
    ensures |r| == |rows| && StorageIds(r) == StorageIds(rows)
  {
    seq(|rows|, i requires 0 <= i < |rows| => if rows[i].id == d.id then RowFrom(rows[i], d) else rows[i])
  }

  function FlushDevice(d: RmsStorageInfo, t: Tables): (RmsStorageInfo, Tables) {
    if !d.dirty then (d, t)
    else if Succeeds(t) then (d.(dirty := false), Spent(t).(storage := UpdateStorage(t.storage, d)))
    else (d.(dirty := true), Spent(t))
  }

  function Flush(devs: seq<RmsStorageInfo>, t: Tables): (seq<RmsStorageInfo>, Tables) {
    if devs == [] then ([], t)
    else
      var (d, t1) := FlushDevice(devs[0], t);
      var (rest, t2) := Flush(devs[1..], t1);
      ([d] + rest, t2)
  }

  function FlushSys(c: Computer, t: Tables): (Computer, Tables) {
    if !c.dirty then (c, t)
    else if Succeeds(t) then
      (c.(dirty := false), Spent(t).(computers := UpdateComputer(t.computers, RowOf(c.id, c.sys))))
    else (c, Spent(t))
  }

  function Update(c: Computer, t: Tables): (Computer, Tables) {
    if c.id == -1 then (c, t)
    else
      var (c1, t1) := FlushSys(c, t);
      var (devs, t2) := Flush(c1.devs, t1);
      (c1.(devs := devs), t2)
  }

  // ---------- addToDB ----------

  function StorageRowOf(id: int, computerId: int, d: RmsStorageInfo): StorageRow {
    StorageRow(id, computerId, d.devPath, d.fsType, d.mountPoint, d.free, d.total, true)
  }

  function AddDevice(d: RmsStorageInfo, computerId: int, t: Tables): (RmsStorageInfo, Tables) {
    if Succeeds(t) then
      var id := FreshId(StorageIds(t.storage));
      (d.(id := id, dirty := false), Spent(t).(storage := t.storage + [StorageRowOf(id, computerId, d)]))
    else (d.(dirty := true), Spent(t))
  }

  function AddDevices(devs: seq<RmsStorageInfo>, computerId: int, t: Tables): (seq<RmsStorageInfo>, Tables) {
    if devs == [] then ([], t)
    else
      var (d, t1) := AddDevice(devs[0], computerId, t);
      var (rest, t2) := AddDevices(devs[1..], computerId, t1);
      ([d] + rest, t2)
  }

  lemma AddsNext(done: seq<RmsStorageInfo>, devs: seq<RmsStorageInfo>, computerId: int, t: Tables)
    requires devs != []
    ensures var (d, t1) := AddDevice(devs[0], computerId, t);
            && AddDevices(devs, computerId, t).1 == AddDevices(devs[1..], computerId, t1).1
            && done + AddDevices(devs, computerId, t).0 == (done + [d]) + AddDevices(devs[1..], computerId, t1).0
  {
    var (d, t1) := AddDevice(devs[0], computerId, t);
    var rest := AddDevices(devs[1..], computerId, t1).0;
    assert AddDevices(devs, computerId, t).0 == [d] + rest;
    assert done + ([d] + rest) == (done + [d]) + rest;
  }

  function Add(c: Computer, t: Tables): (Computer, Tables) {
    if !Succeeds(t) then (c, Spent(t))
    else
      var id := FreshId(ComputerIds(t.computers));
      var t1 := Spent(t).(computers := t.computers + [InsertedRow(id, c.sys)]);
      var (devs, t2) := AddDevices(c.devs, id, t1);
      (c.(id := id, devs := devs), t2)
  }

  // ---------- getFromDB ----------

  /** What the version variables hold where a text does not parse. */
  datatype Junk = Junk(os: VersionData, client: VersionData)

  /** The architecture is only ever set to kX86_64, which is also its default. */
  function LoadedSys(r: ComputerRow, junk: Junk): SystemInfo {
    SystemInfo(r.systemName, r.hostName, Parse(r.osVersion).GetOr(junk.os), Parse(r.clientVersion).GetOr(junk.client),
               CpuInfo(r.cores, r.cacheSize, X86_64, r.cpuName, r.cpuVendor), [])
  }

  /** free is not read back, connected waits for a report. */
  function LoadedDevice(r: StorageRow): RmsStorageInfo {
    RmsStorageInfo(r.id, r.devPath, r.fsType, r.mountPoint, 0, r.total, false, false)
  }

  function LoadedDevices(rows: seq<StorageRow>): seq<RmsStorageInfo> {
    seq(|rows|, i requires 0 <= i < |rows| => LoadedDevice(rows[i]))
  }

  function Fetch(c: Computer, t: Tables, junk: Junk): (Computer, Tables) {
    if c.id == -1 then (c, t)
    else if !Succeeds(t) then (c, Spent(t))
    else
      var found := SelectComputer(t.computers, c.id);
      if |found| != 1 then Add(c, Spent(t)) else LoadRow(c, Spent(t), found[0], junk)
  }

  function LoadRow(c: Computer, t: Tables, row: ComputerRow, junk: Junk): (Computer, Tables) {
    var c1 := c.(sys := LoadedSys(row, junk));
    if Succeeds(t) then (c1.(devs := c1.devs + LoadedDevices(SelectStorage(t.storage, c.id))), Spent(t))
    else (c1, Spent(t))
  }

  // ---------- RmsClient::handshake and ::sendSysInfo ----------

  /** With an id that fits an int. */
  function Handshake(id: int, report: SystemInfo, t: Tables, junk: Junk): (Computer, Tables) {
    if id != -1 then
      var (c, t1) := Fetch(NewComputer(id), t, junk);
      Update(SetSys(c, report), t1)
    else
      Add(SetSys(NewComputer(id), report), t)
  }

  /** The presented id has 64 bits, and the constructor of RmsComputer takes an int. An
      id that becomes -1 there is neither looked up nor added. */
  predicate NarrowsToNone(id: int) { id != -1 && Narrow(id) == -1 }

  function Presented(id: int, report: SystemInfo, t: Tables, junk: Junk): (Computer, Tables) {
    if NarrowsToNone(id) then (SetSys(NewComputer(-1), report), t) else Handshake(Narrow(id), report, t, junk)
  }

  function SendSys(c: Computer, report: SystemInfo, t: Tables): (Computer, Tables) {
    Update(SetSys(c, report), t)
  }

  // ---------- the class ----------

  class RmsDatabase {
    var tables: Tables

    constructor (tables: Tables)
      ensures this.tables == tables
    {
      this.tables := tables;
    }

    /** One statement: does it succeed? */
    method Execute() returns (success: bool)
      modifies this
      ensures success == Succeeds(old(tables)) && tables == Spent(old(tables))
    {
      success := Passes(tables.script, 0);
      tables := tables.(script := Drop(tables.script, 1));
    }
  }

  class RmsComputer {
    var computerId: int
    var sysInfo: SystemInfo
    var storageInfo: seq<RmsStorageInfo>
    var sysInfoDirty: bool

    function Contents(): Computer
      reads this
    {
      Computer(computerId, sysInfo, storageInfo, sysInfoDirty)
    }

    constructor (id: int)
      ensures Contents() == NewComputer(id)
    {
      computerId, sysInfo, storageInfo, sysInfoDirty := id, EMPTY_SYS, [], false;
    }

    method AddStorageDevice(dev: StorageInfo)
      modifies this`storageInfo
      ensures storageInfo == Merge(old(storageInfo), dev)
    {
      var i := 0;
      while i < |storageInfo|
        invariant 0 <= i <= |storageInfo| && storageInfo == old(storageInfo)
        invariant forall k :: 0 <= k < i ==> storageInfo[k].devPath != dev.dev
      {
        if storageInfo[i].devPath == dev.dev {
          MergeFound(storageInfo, dev, i);
          storageInfo := storageInfo[i := Taken(storageInfo[i], dev)];
          return;
        }
        i := i + 1;
      }
      MergeNew(storageInfo, dev);
      storageInfo := storageInfo + [NewDevice(dev)];
    }

    method SetSysInfo(report: SystemInfo)
      modifies this
      ensures Contents() == SetSys(old(Contents()), report)
      ensures sysInfoDirty <==> !(old(sysInfo.hostName) == report.hostName && old(sysInfo.cpu) == report.cpu
                                  && old(sysInfo.systemName) == report.systemName
                                  && old(sysInfo.clientVersion) == report.clientVersion && old(sysInfo.osVersion) == report.osVersion)
    {
      sysInfoDirty := !SameSys(sysInfo, report);
      sysInfo := report;
      for i := 0 to |report.storage|
        invariant MergeAll(storageInfo, report.storage[i..]) == MergeAll(old(storageInfo), report.storage)
        invariant computerId == old(computerId) && sysInfo == report && sysInfoDirty == !SameSys(old(sysInfo), report)
      {
        assert report.storage[i..][1..] == report.storage[i + 1..];
        AddStorageDevice(report.storage[i]);
      }
      assert report.storage[|report.storage|..] == [];
      sysInfo := sysInfo.(storage := []);
    }

    method UpdateDB(db: RmsDatabase)
      modifies this, db
      ensures (Contents(), db.tables) == Update(old(Contents()), old(db.tables))
    {
      if computerId == -1 {
        return;
      }
      if sysInfoDirty {
        var success := db.Execute();
        if success {
          db.tables := db.tables.(computers := UpdateComputer(db.tables.computers, RowOf(computerId, sysInfo)));
          sysInfoDirty := false;
        }
      }
      UpdateStorageTable(db);
    }

    method UpdateStorageTable(db: RmsDatabase)
      modifies this`storageInfo, db
      ensures (storageInfo, db.tables) == Flush(old(storageInfo), old(db.tables))
    {
      ghost var devs := storageInfo;
      var i := 0;
      while i < |storageInfo|
        invariant 0 <= i <= |storageInfo| == |devs|
        invariant storageInfo[i..] == devs[i..]
        invariant Flush(devs, old(db.tables)).0 == storageInfo[..i] + Flush(devs[i..], db.tables).0
        invariant Flush(devs, old(db.tables)).1 == Flush(devs[i..], db.tables).1
      {
        ghost var before := db.tables;
        assert devs[i..][0] == storageInfo[i] && devs[i..][1..] == devs[i + 1..];
        if storageInfo[i].dirty {
          var success := db.Execute();
          if success {
            db.tables := db.tables.(storage := UpdateStorage(db.tables.storage, storageInfo[i]));
          }
          storageInfo := storageInfo[i := storageInfo[i].(dirty := !success)];
        }
        assert (storageInfo[i], db.tables) == FlushDevice(devs[i], before);
        assert storageInfo[i + 1..] == devs[i + 1..];
        ghost var rest := Flush(devs[i + 1..], db.tables).0;
        assert storageInfo[..i] + ([storageInfo[i]] + rest) == storageInfo[..i + 1] + rest;
        i := i + 1;
      }
      assert devs[i..] == [] && storageInfo[..i] + [] == storageInfo;
    }

    method AddToDB(db: RmsDatabase)
      modifies this, db
      ensures (Contents(), db.tables) == Add(old(Contents()), old(db.tables))
    {
      var success := db.Execute();
      if !success {
        return;
      }
      var id := FreshId(ComputerIds(db.tables.computers));
      db.tables := db.tables.(computers := db.tables.computers + [InsertedRow(id, sysInfo)]);
      computerId := id;
      AddStorageRows(db);
    }

    method AddStorageRows(db: RmsDatabase)
      modifies this`storageInfo, db
      ensures (storageInfo, db.tables) == AddDevices(old(storageInfo), computerId, old(db.tables))
    {
      ghost var devs := storageInfo;
      var i := 0;
      while i < |storageInfo|
        invariant 0 <= i <= |storageInfo| == |devs|
        invariant storageInfo[i..] == devs[i..]
        invariant AddDevices(devs, computerId, old(db.tables)).0 == storageInfo[..i] + AddDevices(devs[i..], computerId, db.tables).0
        invariant AddDevices(devs, computerId, old(db.tables)).1 == AddDevices(devs[i..], computerId, db.tables).1
      {
        assert devs[i..][0] == storageInfo[i] && devs[i..][1..] == devs[i + 1..];
        AddsNext(storageInfo[..i], devs[i..], computerId, db.tables);
        var dev := AddStorageRow(storageInfo[i], db);
        assert storageInfo[i := dev][..i + 1] == storageInfo[..i] + [dev];
        storageInfo := storageInfo[i := dev];
        assert storageInfo[i + 1..] == devs[i + 1..];
        i := i + 1;
      }
      assert devs[i..] == [] && storageInfo[..i] + [] == storageInfo;
    }

    /** The body of the loop. */
    method AddStorageRow(dev: RmsStorageInfo, db: RmsDatabase) returns (dev': RmsStorageInfo)
      modifies db
      ensures (dev', db.tables) == AddDevice(dev, computerId, old(db.tables))
    {
      var success := db.Execute();
      dev' := dev.(dirty := !success);
      if success {
        var id := FreshId(StorageIds(db.tables.storage));
        db.tables := db.tables.(storage := db.tables.storage + [StorageRowOf(id, computerId, dev)]);
        dev' := dev.(id := id, dirty := false);
      }
    }

    method GetFromDB(db: RmsDatabase, junk: Junk)
      modifies this, db
      ensures (Contents(), db.tables) == Fetch(old(Contents()), old(db.tables), junk)
    {
      if computerId == -1 {
        return;
      }
      var success := db.Execute();
      if !success {
        return;
      }
      var found := SelectComputer(db.tables.computers, computerId);
      if |found| != 1 {
        AddToDB(db);
      } else {
        GetRow(db, found[0], junk);
      }
    }

    method GetRow(db: RmsDatabase, row: ComputerRow, junk: Junk)
      modifies this, db
      ensures (Contents(), db.tables) == LoadRow(old(Contents()), old(db.tables), row, junk)
    {
      sysInfo := LoadedSys(row, junk);
      var success := db.Execute();
      if success {
        LoadStorage(SelectStorage(db.tables.storage, computerId));
      }
    }

    method LoadStorage(rows: seq<StorageRow>)
      modifies this`storageInfo
      ensures storageInfo == old(storageInfo) + LoadedDevices(rows)
      ensures forall i :: 0 <= i < |rows| ==>
                var d := storageInfo[|old(storageInfo)| + i];
                d.id == rows[i].id && d.devPath == rows[i].devPath && d.fsType == rows[i].fsType && d.mountPoint == rows[i].mountPoint
                && d.total == rows[i].total && d.free == 0 && !d.connected && !d.dirty
    {
      for i := 0 to |rows|
        invariant storageInfo == old(storageInfo) + LoadedDevices(rows[..i])
      {
        storageInfo := storageInfo + [LoadedDevice(rows[i])];
        assert LoadedDevices(rows[..i + 1]) == LoadedDevices(rows[..i]) + [LoadedDevice(rows[i])];
      }
      assert rows[..|rows|] == rows;
    }
  }
}
