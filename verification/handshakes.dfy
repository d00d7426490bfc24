/** RmsClient::handshake: reconciliation of a known computer, registration of a new
    one, and the identity that survives. */
module Handshakes {
  import opened Wire
  import opened Version
  import opened Database
  import opened Computers
  import opened Reconciliation
  import opened WriteBack

  predicate PathsDistinct(rows: seq<StorageRow>) {
    forall i, j :: 0 <= i < j < |rows| && rows[i].computerId == rows[j].computerId ==> rows[i].devPath != rows[j].devPath
  }

  /** Every storage row belongs to a computer row (the foreign key). */
  predicate ForeignKeys(t: Tables) {
    forall k :: 0 <= k < |t.storage| ==> HasComputer(t.computers, t.storage[k].computerId)
  }

  /** The tables as the server's own statements leave them. */
  ghost predicate Tidy(t: Tables) {
    TablesOk(t) && PathsDistinct(t.storage) && ForeignKeys(t)
  }

  // ---------- a computer with a row ----------

  lemma PrimaryKey(rows: seq<ComputerRow>, i: nat, j: nat)
    requires IdsIncrease(ComputerIds(rows)) && i < |rows| && j < |rows| && rows[i].id == rows[j].id
    ensures i == j && rows[i].id > 0
  {
    assert ComputerIds(rows)[i] == rows[i].id && ComputerIds(rows)[j] == rows[j].id;
  }

  lemma {:induction false} SelectOne(rows: seq<ComputerRow>, j: nat)
    requires IdsIncrease(ComputerIds(rows)) && j < |rows|
    ensures SelectComputer(rows, rows[j].id) == [rows[j]]
    decreases |rows|
  {
    assert forall i :: 0 <= i < |rows| ==> ComputerIds(rows)[i] == rows[i].id;
    assert forall i :: 0 <= i < |rows[1..]| ==> ComputerIds(rows[1..])[i] == ComputerIds(rows)[i + 1];
    if j == 0 {
      assert !HasComputer(rows[1..], rows[0].id);
    } else {
      SelectOne(rows[1..], j - 1);
    }
  }

  predicate DistinctRows(rows: seq<StorageRow>) {
    forall i, j :: 0 <= i < j < |rows| ==> rows[i].id != rows[j].id && rows[i].devPath != rows[j].devPath
  }

  lemma DistinctCons(r: StorageRow, rows: seq<StorageRow>)
    requires DistinctRows(rows)
    requires forall j :: 0 <= j < |rows| ==> rows[j].id != r.id && rows[j].devPath != r.devPath
    ensures DistinctRows([r] + rows)
  {
  }

  predicate KeysDistinct(rows: seq<StorageRow>) {
    forall i, j :: 0 <= i < j < |rows| ==>
      rows[i].id != rows[j].id && (rows[i].computerId == rows[j].computerId ==> rows[i].devPath != rows[j].devPath)
  }

  lemma TidyKeys(rows: seq<StorageRow>)
    requires IdsIncrease(StorageIds(rows)) && PathsDistinct(rows)
    ensures KeysDistinct(rows)
  {
    assert forall i :: 0 <= i < |rows| ==> StorageIds(rows)[i] == rows[i].id;
  }

  lemma HeadKey(rows: seq<StorageRow>, r: StorageRow)
    requires KeysDistinct(rows) && rows != [] && r in rows[1..]
    ensures r.id != rows[0].id && (r.computerId == rows[0].computerId ==> r.devPath != rows[0].devPath)
  {
    var l :| 0 <= l < |rows[1..]| && rows[1..][l] == r;
    assert rows[l + 1] == r;
  }

  lemma {:induction false} SelectedDevices(rows: seq<StorageRow>, id: int)
    requires KeysDistinct(rows)
    ensures DistinctRows(SelectStorage(rows, id))
    decreases |rows|
  {
    if rows != [] {
      var rest := SelectStorage(rows[1..], id);
      SelectedDevices(rows[1..], id);
      if rows[0].computerId == id {
        forall j | 0 <= j < |rest| ensures rest[j].id != rows[0].id && rest[j].devPath != rows[0].devPath {
          HeadKey(rows, rest[j]);
        }
        DistinctCons(rows[0], rest);
      } else {
        assert [] + rest == rest;
      }
    }
  }

  /** What getFromDB makes of a known computer. */
  function Loaded(row: ComputerRow, t: Tables, junk: Junk): Computer {
    Computer(row.id, LoadedSys(row, junk), LoadedDevices(SelectStorage(t.storage, row.id)), false)
  }

  lemma FetchKnown(t: Tables, j: nat, junk: Junk)
    requires IdsIncrease(ComputerIds(t.computers)) && t.script == [] && j < |t.computers|
    ensures Fetch(NewComputer(t.computers[j].id), t, junk) == (Loaded(t.computers[j], t, junk), t)
  {
    var row := t.computers[j];
    PrimaryKey(t.computers, j, j);
    SelectOne(t.computers, j);
    assert [] + LoadedDevices(SelectStorage(t.storage, row.id)) == LoadedDevices(SelectStorage(t.storage, row.id));
  }

  lemma LoadedOk(t: Tables, j: nat, junk: Junk)
    requires Tidy(t) && t.script == [] && j < |t.computers|
    ensures SessionOk(Loaded(t.computers[j], t, junk), t)
  {
    var id := t.computers[j].id;
    PrimaryKey(t.computers, j, j);
    TidyKeys(t.storage);
    SelectedDevices(t.storage, id);
    assert HasComputer(t.computers, id);
  }

  lemma KnownHandshake(t: Tables, j: nat, report: SystemInfo, junk: Junk)
    requires Tidy(t) && t.script == [] && j < |t.computers|
    ensures var c := Loaded(t.computers[j], t, junk);
            Handshake(t.computers[j].id, report, t, junk) == SendSys(c, report, t) && SessionOk(c, t)
  {
    LoadedOk(t, j, junk);
    FetchKnown(t, j, junk);
    PrimaryKey(t.computers, j, j);
  }

  /** The computer row after the handshake shows the report exactly when the loaded
      fields differed from it, or the row was right before. Other rows stay. */
  lemma HandshakeComputerRow(t: Tables, j: nat, report: SystemInfo, junk: Junk, i: nat)
    requires Tidy(t) && t.script == [] && j < |t.computers| && i < |t.computers|
    ensures var id := t.computers[j].id;
            var (c', t') := Handshake(id, report, t, junk);
            && c'.id == id && |t'.computers| == |t.computers|
            && (i != j ==> t'.computers[i] == t.computers[i])
            && (t'.computers[j] == RowOf(id, report) <==>
                  !SameSys(LoadedSys(t.computers[j], junk), report) || t.computers[j] == RowOf(id, report))
  {
    KnownHandshake(t, j, report, junk);
    SendSysParts(Loaded(t.computers[j], t, junk), report, t);
    if t.computers[i].id == t.computers[j].id {
      PrimaryKey(t.computers, i, j);
    }
  }

  predicate SysFits(s: SystemInfo) { VersionFits(s.osVersion) && VersionFits(s.clientVersion) }

  /** The name of the architecture, as thrift prints it. */
  predicate NamesArch(text: string, a: Architecture) {
    match a
    case X86_64 => text == "kX86_64"
    case X86 => text == "kX86"
    case Arm => text == "kArm"
    case Arm64 => text == "kArm64"
    case UnknownArch => text == "kUnknown"
  }

  /** The row, column by column: the report, with this client version. */
  predicate HasColumns(row: ComputerRow, id: int, s: SystemInfo, client: VersionData) {
    && row.id == id && row.systemName == s.systemName && row.hostName == s.hostName
    && Parse(row.osVersion) == Some(s.osVersion) && Parse(row.clientVersion) == Some(client)
    && row.cpuName == s.cpu.name && row.cpuVendor == s.cpu.vendor
    && row.cores == s.cpu.cores && row.cacheSize == s.cpu.cacheSize && NamesArch(row.arch, s.cpu.arch)
  }

  /** What the update writes, and what addToDB inserts, which prints the major number
      of the client twice. */
  lemma RowColumns(id: int, s: SystemInfo)
    requires SysFits(s)
    ensures HasColumns(RowOf(id, s), id, s, s.clientVersion)
    ensures HasColumns(InsertedRow(id, s), id, s, s.clientVersion.(minor := s.clientVersion.major))
  {
    var v := s.clientVersion;
    VersionRoundTrip(s.osVersion);
    VersionRoundTrip(v);
    ParsePrint(v.major, v.major, v.release);
  }

  lemma LoadedOwnRow(id: int, was: SystemInfo, junk: Junk)
    requires SysFits(was)
    ensures LoadedSys(RowOf(id, was), junk) == was.(cpu := was.cpu.(arch := X86_64), storage := [])
  {
    VersionRoundTrip(was.osVersion);
    VersionRoundTrip(was.clientVersion);
  }

  lemma RowOfInjective(id: int, a: SystemInfo, b: SystemInfo)
    requires SysFits(a)
    ensures RowOf(id, a) == RowOf(id, b) <==> SameSys(a, b)
  {
    if RowOf(id, a) == RowOf(id, b) {
      PrintInjective(a.osVersion, b.osVersion);
      PrintInjective(a.clientVersion, b.clientVersion);
    }
  }

  /** For a row that an earlier report (was) left: after the handshake it shows the
      new report, unless the architecture alone changed, and changed to x86-64. */
  lemma HandshakeRefreshesComputer(t: Tables, j: nat, was: SystemInfo, report: SystemInfo, junk: Junk)
    requires Tidy(t) && t.script == [] && j < |t.computers|
    requires SysFits(was) && t.computers[j] == RowOf(t.computers[j].id, was)
    ensures var id := t.computers[j].id;
            |Handshake(id, report, t, junk).1.computers| == |t.computers|
            && (Handshake(id, report, t, junk).1.computers[j] == RowOf(id, report) <==>
                  !(was.cpu.arch != X86_64 && SameSys(was.(cpu := was.cpu.(arch := X86_64)), report)))
  {
    var id := t.computers[j].id;
    HandshakeComputerRow(t, j, report, junk, j);
    LoadedOwnRow(id, was, junk);
    RowOfInjective(id, was, report);
  }

  /** A storage row after the handshake of a known computer: rows of other computers
      and rows of unreported paths stay; a reported one shows the last entry for its
      path exactly when that entry differed from what it was compared with (the row
      with free read as 0, or the entry before), or the row was right before. */
  lemma HandshakeStorageRow(t: Tables, j: nat, report: SystemInfo, junk: Junk, k: nat)
    requires Tidy(t) && t.script == [] && j < |t.computers| && k < |t.storage|
    ensures |Handshake(t.computers[j].id, report, t, junk).1.storage| == |t.storage|
    ensures var id, r := t.computers[j].id, t.storage[k];
            var r' := Handshake(id, report, t, junk).1.storage[k];
            var es := Entries(report.storage, r.devPath);
            if r.computerId != id || |es| == 0 then r' == r
            else var goal := Target(r, es[|es| - 1]);
                 (r' == goal || r' == r) && (r' == goal <==> !Unchanged(LoadedDevice(r), es) || r == goal)
  {
    var id, r := t.computers[j].id, t.storage[k];
    var c := Loaded(t.computers[j], t, junk);
    KnownHandshake(t, j, report, junk);
    SendSysParts(c, report, t);
    if r.computerId == id {
      SelectStorageHas(t.storage, id, r);
      var i :| 0 <= i < |c.devs| && SelectStorage(t.storage, id)[i] == r;
      DeviceRowAfterReport(c, report, t, i, k);
    } else {
      ForeignRow(c, report.storage, t, k);
      assert FlushedRow(MergeAll(c.devs, report.storage), r, SendSys(c, report, t).1.storage[k]);
    }
  }

  /** No device of the computer has the id of another computer's row. */
  lemma ForeignRow(c: Computer, report: seq<StorageInfo>, t: Tables, k: nat)
    requires Tidy(t) && DistinctPaths(c.devs) && c.devs == LoadedDevices(SelectStorage(t.storage, c.id))
    requires k < |t.storage| && t.storage[k].computerId != c.id
    ensures forall i :: 0 <= i < |MergeAll(c.devs, report)| ==> MergeAll(c.devs, report)[i].id != t.storage[k].id
  {
    MergeAllAt(c.devs, report);
    PositiveStorage(t);
    forall i | 0 <= i < |MergeAll(c.devs, report)| ensures MergeAll(c.devs, report)[i].id != t.storage[k].id {
      if i < |c.devs| {
        TrackId(c.devs[i], Entries(report, c.devs[i].devPath));
        var row := SelectStorage(t.storage, c.id)[i];
        assert row in t.storage;
        var l :| 0 <= l < |t.storage| && t.storage[l] == row;
        assert StorageIds(t.storage)[l] == row.id && StorageIds(t.storage)[k] == t.storage[k].id;
      }
    }
  }

  /** The usual case: no path twice, and a file system that is not full. */
  lemma HandshakeRefreshesStorage(t: Tables, j: nat, report: SystemInfo, junk: Junk, k: nat, e: StorageInfo)
    requires Tidy(t) && t.script == [] && j < |t.computers| && k < |t.storage|
    requires DistinctReport(report.storage) && e in report.storage && e.free != 0
    requires t.storage[k].computerId == t.computers[j].id && t.storage[k].devPath == e.dev
    ensures |Handshake(t.computers[j].id, report, t, junk).1.storage| == |t.storage|
    ensures Handshake(t.computers[j].id, report, t, junk).1.storage[k] == Target(t.storage[k], e)
    ensures ShowsEntry(t.storage[k], Handshake(t.computers[j].id, report, t, junk).1.storage[k], e)
  {
    HandshakeStorageRow(t, j, report, junk, k);
    OneEntry(report.storage, e);
  }

  lemma {:induction false} EntriesHave(report: seq<StorageInfo>, e: StorageInfo)
    requires e in report
    ensures e in Entries(report, e.dev)
    decreases |report|
  {
    if report[0] != e {
      EntriesHave(report[1..], e);
    }
  }

  lemma OneEntry(report: seq<StorageInfo>, e: StorageInfo)
    requires DistinctReport(report) && e in report
    ensures Entries(report, e.dev) == [e]
  {
    EntriesOfDistinct(report, e.dev);
    EntriesHave(report, e);
  }

  /** Device i is the one of row k, has the path, and is in sync. */
  ghost predicate SyncedAt(c: Computer, t: Tables, path: string, i: nat, k: nat) {
    && i < |c.devs| && c.devs[i].devPath == path && InSync(c.devs[i], t.storage)
    && k < |t.storage| && t.storage[k].id == c.devs[i].id
  }

  /** The device of row k in the computer's list, in sync after the handshake. */
  lemma HandshakeSyncs(t: Tables, j: nat, report: SystemInfo, junk: Junk, k: nat, e: StorageInfo) returns (i: nat)
    requires Tidy(t) && t.script == [] && j < |t.computers| && k < |t.storage|
    requires DistinctReport(report.storage) && e in report.storage && e.free != 0
    requires t.storage[k].computerId == t.computers[j].id && t.storage[k].devPath == e.dev
    ensures var (c1, t1) := Handshake(t.computers[j].id, report, t, junk);
            SessionOk(c1, t1) && SyncedAt(c1, t1, e.dev, i, k)
  {
    var id, r := t.computers[j].id, t.storage[k];
    var c := Loaded(t.computers[j], t, junk);
    KnownHandshake(t, j, report, junk);
    SelectStorageHas(t.storage, id, r);
    i :| 0 <= i < |SelectStorage(t.storage, id)| && SelectStorage(t.storage, id)[i] == r;
    assert c.devs[i] == LoadedDevice(r);
    OneEntry(report.storage, e);
    ReportKeepsSync(c, report, t, i);
    SendSysParts(c, report, t);
    assert StorageIds(t.storage)[k] == StorageIds(SendSys(c, report, t).1.storage)[k];
  }

  /** From such a handshake on, through any reports without repeated paths, row k shows
      the last entry reported for its path, and agrees with its clean device: selective
      flush is full rewrite. */
  lemma HandshakeThenSession(t: Tables, j: nat, report: SystemInfo, reports: seq<SystemInfo>, junk: Junk, k: nat, e: StorageInfo)
    requires Tidy(t) && t.script == [] && j < |t.computers| && k < |t.storage|
    requires DistinctReport(report.storage) && e in report.storage && e.free != 0
    requires t.storage[k].computerId == t.computers[j].id && t.storage[k].devPath == e.dev
    requires forall r <- reports :: DistinctReport(r.storage)
    ensures var (c1, t1) := Handshake(t.computers[j].id, report, t, junk);
            var (c2, t2) := Session(c1, reports, t1);
            && |t2.storage| == |t.storage|
            && t2.storage[k] == Target(t.storage[k], LastEntry(reports, e.dev).GetOr(e))
            && ShowsEntry(t.storage[k], t2.storage[k], LastEntry(reports, e.dev).GetOr(e))
            && exists i: nat :: SyncedAt(c2, t2, e.dev, i, k) && t2.storage[k] == RowFrom(t2.storage[k], c2.devs[i])
  {
    var i := HandshakeSyncs(t, j, report, junk, k, e);
    HandshakeRefreshesStorage(t, j, report, junk, k, e);
    var (c1, t1) := Handshake(t.computers[j].id, report, t, junk);
    SessionKeepsSync(c1, reports, t1, i);
    SessionRow(c1, reports, t1, i, k);
    var (c2, t2) := Session(c1, reports, t1);
    assert SyncedAt(c2, t2, e.dev, i, k);
  }

  // ---------- the exceptions, at concrete inputs ----------

  const FULL := StorageInfo("/dev/sda1", "ext4", 0, 9, "/")

  /** A file system that fills up: free is read back as 0, so the report of 0 compares
      as unchanged, and the row keeps its 5. */
  lemma FullDeviceIsNotWritten(junk: Junk)
    ensures var t := Tables([RowOf(1, EMPTY_SYS)], [DEVICE_ROW], []);
            Handshake(1, EMPTY_SYS.(storage := [FULL]), t, junk).1.storage == [DEVICE_ROW] && DEVICE_ROW.free == 5
  {
    var t := Tables([RowOf(1, EMPTY_SYS)], [DEVICE_ROW], []);
    SampleTidy(t);
    assert [FULL][1..] == [];
    assert Entries([FULL], DEVICE_ROW.devPath) == [FULL];
    HandshakeStorageRow(t, 0, EMPTY_SYS.(storage := [FULL]), junk, 0);
  }

  lemma SampleTidy(t: Tables)
    requires |t.computers| == 1 && t.computers[0].id == 1
    requires t.storage == [] || t.storage == [DEVICE_ROW]
    ensures Tidy(t)
  {
    assert ComputerIds(t.computers) == [1];
    assert StorageIds(t.storage) == if t.storage == [] then [] else [1];
    assert HasComputer(t.computers, 1);
  }

  const ARM := EMPTY_SYS.(cpu := EMPTY_SYS.cpu.(arch := Arm))

  /** A change of the architecture alone, to x86-64, is not written. */
  lemma ArchitectureIsMissed(t: Tables, junk: Junk)
    requires t.computers == [RowOf(1, ARM)] && t.storage == [] && t.script == []
    ensures |Handshake(1, EMPTY_SYS, t, junk).1.computers| == 1
    ensures Handshake(1, EMPTY_SYS, t, junk).1.computers[0] != RowOf(1, EMPTY_SYS)
  {
    SampleTidy(t);
    HandshakeRefreshesComputer(t, 0, ARM, EMPTY_SYS, junk);
  }
}
