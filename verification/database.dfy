/** The computer and storage tables, and the statements that the server sends to
    them. A table is the sequence of its rows in row-id order. */
module Database {
  import opened Wire
  import opened Scripts
  import opened Version

  datatype ComputerRow = ComputerRow(
    id: int, systemName: string, hostName: string, osVersion: string, clientVersion: string,
    cpuName: string, cpuVendor: string, cores: int, cacheSize: int, arch: string)

  datatype StorageRow = StorageRow(
    id: int, computerId: int, devPath: string, fsType: string, mountPoint: string,
    free: nat, total: nat, connected: bool)

  /** script: the outcomes of the coming statements. A failed one changes nothing. */
  datatype Tables = Tables(computers: seq<ComputerRow>, storage: seq<StorageRow>, script: seq<bool>)

  predicate Succeeds(t: Tables) { Passes(t.script, 0) }

  function Spent(t: Tables): Tables {
    t.(script := Drop(t.script, 1))
  }

  /** Primary keys: positive and increasing along the table. */
  predicate IdsIncrease(ids: seq<int>) {
    && (forall i :: 0 <= i < |ids| ==> ids[i] > 0)
    && (forall i, j :: 0 <= i < j < |ids| ==> ids[i] < ids[j])
  }

  function ComputerIds(rows: seq<ComputerRow>): (ids: seq<int>) {
    seq(|rows|, i requires 0 <= i < |rows| => rows[i].id)
  }

  function StorageIds(rows: seq<StorageRow>): (ids: seq<int>) {
    seq(|rows|, i requires 0 <= i < |rows| => rows[i].id)
  }

  ghost predicate TablesOk(t: Tables) {
    IdsIncrease(ComputerIds(t.computers)) && IdsIncrease(StorageIds(t.storage))
  }

  /** INTEGER PRIMARY KEY: one more than the largest row id. */
  function FreshId(ids: seq<int>): (id: int)
    ensures IdsIncrease(ids) ==> id > 0 && forall i :: 0 <= i < |ids| ==> ids[i] < id
  {
    if ids == [] then 1 else ids[|ids| - 1] + 1
  }

  lemma FreshIncreases(ids: seq<int>)
    requires IdsIncrease(ids)
    ensures IdsIncrease(ids + [FreshId(ids)])
  {
  }

  function ArchName(a: Architecture): string {
    match a
    case X86_64 => "kX86_64"
    case X86 => "kX86"
    case Arm => "kArm"
    case Arm64 => "kArm64"
    case UnknownArch => "kUnknown"
  }

  /** The row that RMS_DB_UPDATE_COMPUTER_TABLE writes. */
  function RowOf(id: int, s: SystemInfo): ComputerRow {
    ComputerRow(id, s.systemName, s.hostName, PrintVersion(s.osVersion), PrintVersion(s.clientVersion),
                s.cpu.name, s.cpu.vendor, s.cpu.cores, s.cpu.cacheSize, ArchName(s.cpu.arch))
  }

  /** The row that addToDB inserts: the client version is printed as major.major.release. */
  function InsertedRow(id: int, s: SystemInfo): ComputerRow {
    RowOf(id, s).(clientVersion := Print(s.clientVersion.major, s.clientVersion.major, s.clientVersion.release))
  }

  predicate HasComputer(rows: seq<ComputerRow>, id: int) {
    exists i :: 0 <= i < |rows| && rows[i].id == id
  }

  /** SELECT * FROM computer_table WHERE computer_id = id */
  function SelectComputer(rows: seq<ComputerRow>, id: int): (r: seq<ComputerRow>)
    ensures forall row <- r :: row in rows && row.id == id
    ensures r == [] <==> !HasComputer(rows, id)
  {
    if rows == [] then []
    else if rows[0].id == id then
      assert HasComputer(rows, id);
      [rows[0]] + SelectComputer(rows[1..], id)
    else
      assert HasComputer(rows, id) <==> HasComputer(rows[1..], id) by {
        if HasComputer(rows, id) {
          var i :| 0 <= i < |rows| && rows[i].id == id;
          assert rows[1..][i - 1].id == id;
        }
        if HasComputer(rows[1..], id) {
          var i :| 0 <= i < |rows[1..]| && rows[1..][i].id == id;
          assert rows[i + 1].id == id;
        }
      }
      SelectComputer(rows[1..], id)
  }

  /** UPDATE computer_table ... WHERE computer_id = row.id */
  function UpdateComputer(rows: seq<ComputerRow>, row: ComputerRow): (r: seq<ComputerRow>)
    ensures |r| == |rows| && ComputerIds(r) == ComputerIds(rows)
  {
    seq(|rows|, i requires 0 <= i < |rows| => if rows[i].id == row.id then row else rows[i])
  }

  /** SELECT * FROM storage_table WHERE computer_id = id */
  function SelectStorage(rows: seq<StorageRow>, id: int): (r: seq<StorageRow>)
    ensures forall row <- r :: row in rows && row.computerId == id
  {
    if rows == [] then []
    else (if rows[0].computerId == id then [rows[0]] else []) + SelectStorage(rows[1..], id)
  }

  lemma {:induction false} SelectStorageHas(rows: seq<StorageRow>, id: int, row: StorageRow)
    requires row in rows && row.computerId == id
    ensures row in SelectStorage(rows, id)
  {
    if rows[0] != row {
      SelectStorageHas(rows[1..], id, row);
    }
  }
}
