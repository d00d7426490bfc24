/** The reporter's end of the handshake: the computer id in its configuration, and
    what a restart makes of it. */
module ReporterIdentity {
  import opened Wire
  import opened Text
  import opened Config
  import opened Database
  import opened Computers
  import opened Handshakes
  import opened Identities
  import opened Sessions

  const COMPUTER_ID := "computer_id"

  /** std::stol of the configured id. None: it throws. */
  function StoredId(config: Entries): Option<int> {
    if COMPUTER_ID in config then ReadInt(config[COMPUTER_ID], INT64).0 else None
  }

  lemma IdEntryOk(id: int)
    ensures EntryOk(COMPUTER_ID, IntText(id))
  {
    IntTextNoSpace(id);
    NameOk();
  }

  lemma NameOk()
    ensures NoSpace(COMPUTER_ID)
  {
  }

  /** The id that handshakeTCP presents. None: std::stol throws. */
  method ReadId(config: RmsConfig) returns (id: Option<int>)
    requires WellFormed(config.config)
    modifies config`config
    ensures WellFormed(config.config)
    ensures id == if config.path != "" then StoredId(old(config.config)) else None
    ensures id.Some? ==> config.config == old(config.config)
  {
    NameOk();
    ReadNothing(INT64);
    var text := config.Find(COMPUTER_ID);
    id := ReadInt(text, INT64).0;
    assert id.Some? ==> config.config == old(config.config);
  }

  /** The id that a process started from this file presents first. */
  function FileId(files: map<string, string>, path: string): Option<int> {
    if path in files then StoredId(LoadText(files[path], map[])) else None
  }

  /** The files after save() of a configuration that kept or took an id. */
  ghost predicate SavedIf(changed: bool, path: string, writable: set<string>, files: map<string, string>,
                          files': map<string, string>, config: Entries)
  {
    if changed && path in writable
    then path in files' && files' == files[path := files'[path]] && LoadText(files'[path], map[]) == config
    else files' == files
  }

  /** What handshakeTCP does with the returned id: another one is stored and saved. A
      file that cannot be opened for writing stays as it is. */
  method AdoptId(config: RmsConfig, disk: Disk, id: int, newId: int)
    requires WellFormed(config.config) && config.path != ""
    modifies config`config, disk`files
    ensures WellFormed(config.config)
    ensures config.config == if id == newId then old(config.config) else old(config.config)[COMPUTER_ID := IntText(newId)]
    ensures SavedIf(id != newId, config.path, disk.writable, old(disk.files), disk.files, config.config)
  {
    IdEntryOk(newId);
    if id != newId {
      config.Replace(COMPUTER_ID, IntText(newId));
      ghost var order := config.Save(disk);
      RoundTrip(config.config, order);
    }
  }

  method Register(client: RmsClient, id: int, sysInfo: SystemInfo, db: RmsDatabase, junk: Junk) returns (newId: int)
    requires Tidy(db.tables) && db.tables.script == [] && SysFits(sysInfo)
    modifies client`computer, db
    ensures client.computer != null && fresh(client.computer) && client.computer.computerId == newId
    ensures PresentedEndsAt(id, newId, old(db.tables), db.tables)
  {
    PresentedIdentity(id, sysInfo, db.tables, junk);
    newId := client.Handshake(id, sysInfo, db, junk);
  }

  /** handshakeTCP after the connection: hand over the configured id, and store and
      save the returned one if it is another. */
  method Greet(config: RmsConfig, disk: Disk, client: RmsClient, sysInfo: SystemInfo, db: RmsDatabase, junk: Junk)
    returns (ok: bool)
    requires Tidy(db.tables) && db.tables.script == [] && SysFits(sysInfo)
    requires FreshId(ComputerIds(db.tables.computers)) <= INT32.high
    requires WellFormed(config.config)
    modifies config`config, disk`files, client`computer, db
    ensures ok == (config.path != "" && StoredId(old(config.config)).Some?) && WellFormed(config.config)
    ensures !ok ==> db.tables == old(db.tables) && disk.files == old(disk.files)
    ensures ok ==> client.computer != null && StoredId(config.config) == Some(client.computer.computerId)
    ensures ok ==> var id, newId := StoredId(old(config.config)).value, client.computer.computerId;
                   && PresentedEndsAt(id, newId, old(db.tables), db.tables)
                   && config.config == (if id == newId then old(config.config) else old(config.config)[COMPUTER_ID := IntText(newId)])
                   && SavedIf(id != newId, config.path, disk.writable, old(disk.files), disk.files, config.config)
  {
    var id := ReadId(config);
    if id.None? {
      return false;
    }
    var newId := Register(client, id.value, sysInfo, db, junk);
    ReadWholeInt(newId, INT64);
    AdoptId(config, disk, id.value, newId);
    ok := true;
  }

  // ---------- a process from its start to its handshake ----------

  /** The id in the file after a handshake that presented id and returned newId. */
  function IdLeft(id: int, newId: int, writable: bool): int { if writable then newId else id }

  /** main loads the file, and handshakeTCP presents the id found there. Afterwards the
      file holds the returned id exactly if that is the presented one or the file can
      be written. */
  method Launch(path: string, disk: Disk, client: RmsClient, sysInfo: SystemInfo, db: RmsDatabase, junk: Junk)
    returns (newId: Option<int>)
    requires path != "" && Tidy(db.tables) && db.tables.script == [] && SysFits(sysInfo)
    requires FreshId(ComputerIds(db.tables.computers)) <= INT32.high
    modifies disk`files, client`computer, db
    ensures newId.Some? <==> FileId(old(disk.files), path).Some?
    ensures newId.None? ==> db.tables == old(db.tables) && disk.files == old(disk.files)
    ensures newId.Some? ==>
              var id := FileId(old(disk.files), path).value;
              && PresentedEndsAt(id, newId.value, old(db.tables), db.tables)
              && FileId(disk.files, path) == Some(IdLeft(id, newId.value, path in disk.writable))
              && (FileId(disk.files, path) == newId <==> id == newId.value || path in disk.writable)
  {
    var config := new RmsConfig();
    var loaded := config.Load(disk, path);
    if !loaded {
      return None;
    }
    var ok := Greet(config, disk, client, sysInfo, db, junk);
    if !ok {
      return None;
    }
    newId := Some(client.computer.computerId);
  }

  /** Does the second of two processes end at the id of the first? Only if the first
      kept its (narrowed) id, or could write its file; not if that file then says -1. */
  predicate SameAgain(id: int, first: int, writable: bool) {
    if NarrowsToNone(id) then !writable else Narrow(id) == first || writable
  }

  /** The reporter is started, and started again from what it left on disk: exactly
      when is it the same computer, and which rows are added? */
  method Relaunch(path: string, disk: Disk, client: RmsClient, again: RmsClient, sysInfo: SystemInfo, sysInfo': SystemInfo,
                  db: RmsDatabase, junk: Junk)
    returns (first: Option<int>, second: Option<int>)
    requires path != "" && Tidy(db.tables) && db.tables.script == [] && SysFits(sysInfo) && SysFits(sysInfo')
    requires FreshId(ComputerIds(db.tables.computers)) < INT32.high
    modifies disk`files, client`computer, again`computer, db
    ensures first.Some? == second.Some? == FileId(old(disk.files), path).Some?
    ensures first.Some? ==>
              var id := FileId(old(disk.files), path).value;
              && (second == first <==> SameAgain(id, first.value, path in disk.writable))
              && ComputerIds(db.tables.computers) == ComputerIds(old(db.tables.computers))
                   + (if NarrowsToNone(id) || HasComputer(old(db.tables.computers), Narrow(id)) then [] else [first.value])
                   + (if second == first then [] else [second.value])
  {
    first := Launch(path, disk, client, sysInfo, db, junk);
    if first.None? {
      return None, None;
    }
    ghost var t1 := db.tables;
    FreshAfter(old(db.tables.computers), t1.computers);
    second := Launch(path, disk, again, sysInfo', db, junk);
    ghost var id := FileId(old(disk.files), path).value;
    TwoEnd(old(db.tables), t1, db.tables, id, first.value, second.value, path in disk.writable);
  }

  lemma TwoEnd(t: Tables, t1: Tables, t2: Tables, id: int, first: int, second: int, writable: bool)
    requires Tidy(t) && FreshId(ComputerIds(t.computers)) < INT32.high
    requires PresentedEndsAt(id, first, t, t1) && PresentedEndsAt(IdLeft(id, first, writable), second, t1, t2)
    ensures second == first <==> SameAgain(id, first, writable)
    ensures ComputerIds(t2.computers) == ComputerIds(t.computers)
              + (if NarrowsToNone(id) || HasComputer(t.computers, Narrow(id)) then [] else [first])
              + (if second == first then [] else [second])
  {
    NoRowMinusOne(t);
    if !NarrowsToNone(id) {
      RowFor(t, t1, Narrow(id), first);
      RowFits(t1, first);
    }
  }

  lemma NoRowMinusOne(t: Tables)
    requires Tidy(t)
    ensures !HasComputer(t.computers, -1)
  {
    IdListed(t.computers, -1);
  }

  /** Row ids are below the next one. */
  lemma RowFits(t: Tables, id: int)
    requires Tidy(t) && HasComputer(t.computers, id)
    ensures 0 < id < FreshId(ComputerIds(t.computers))
  {
    IdListed(t.computers, id);
  }

  lemma FreshAfter(rows: seq<ComputerRow>, rows': seq<ComputerRow>)
    requires IdsIncrease(ComputerIds(rows))
    requires ComputerIds(rows') == ComputerIds(rows) || ComputerIds(rows') == ComputerIds(rows) + [FreshId(ComputerIds(rows))]
    ensures FreshId(ComputerIds(rows')) <= FreshId(ComputerIds(rows)) + 1
  {
  }

  /** After a handshake that presented id, which ids have a row? */
  lemma RowFor(t: Tables, t': Tables, id: int, newId: int)
    requires EndsAt(id, newId, t, t')
    ensures forall other :: HasComputer(t'.computers, other) <==> HasComputer(t.computers, other) || other == newId
  {
    forall other ensures HasComputer(t'.computers, other) <==> HasComputer(t.computers, other) || other == newId {
      IdListed(t.computers, other);
      IdListed(t'.computers, other);
      IdListed(t'.computers, newId);
    }
  }

  lemma IdListed(rows: seq<ComputerRow>, id: int)
    ensures HasComputer(rows, id) <==> id in ComputerIds(rows)
  {
    if HasComputer(rows, id) {
      var i :| 0 <= i < |rows| && rows[i].id == id;
      assert ComputerIds(rows)[i] == id;
    }
    if id in ComputerIds(rows) {
      var i :| 0 <= i < |ComputerIds(rows)| && ComputerIds(rows)[i] == id;
      assert rows[i].id == id;
    }
  }

  // ---------- any number of restarts ----------

  /** One process after another, each from the file that the last one left. */
  function Launches(id: int, reports: seq<SystemInfo>, t: Tables, writable: bool, junk: Junk): (int, Tables)
    decreases |reports|
  {
    if reports == [] then (id, t)
    else
      var (c, t1) := Presented(id, reports[0], t, junk);
      Launches(IdLeft(id, c.id, writable), reports[1..], t1, writable, junk)
  }

  /** How many rows n processes in a row add. With a file that cannot be written, each
      of them adds one, until the keys happen to reach the id in the file; an id that
      narrows to -1 adds none, but is replaced by -1 where it can. */
  function RowsAdded(id: int, n: nat, t: Tables, writable: bool): nat {
    var next, int32 := FreshId(ComputerIds(t.computers)), Narrow(id);
    if NarrowsToNone(id) then (if writable && n > 1 then 1 else 0)
    else if HasComputer(t.computers, int32) || n == 0 then 0
    else if writable then 1
    else if int32 >= next && n > int32 - next then int32 - next + 1
    else n
  }

  lemma {:induction false} RestartsAdd(id: int, reports: seq<SystemInfo>, t: Tables, writable: bool, junk: Junk)
    requires Tidy(t) && t.script == [] && forall r <- reports :: SysFits(r)
    requires FreshId(ComputerIds(t.computers)) + |reports| <= INT32.high
    ensures |Launches(id, reports, t, writable, junk).1.computers| == |t.computers| + RowsAdded(id, |reports|, t, writable)
    decreases |reports|
  {
    if reports != [] {
      PresentedIdentity(id, reports[0], t, junk);
      var (c, t1) := Presented(id, reports[0], t, junk);
      OneLaunch(id, c.id, t, t1, |reports|, writable);
      RestartsAdd(IdLeft(id, c.id, writable), reports[1..], t1, writable, junk);
    }
  }

  lemma OneLaunch(id: int, newId: int, t: Tables, t1: Tables, n: nat, writable: bool)
    requires Tidy(t) && n > 0 && FreshId(ComputerIds(t.computers)) + n <= INT32.high && PresentedEndsAt(id, newId, t, t1)
    ensures FreshId(ComputerIds(t1.computers)) <= FreshId(ComputerIds(t.computers)) + 1
    ensures |t1.computers| + RowsAdded(IdLeft(id, newId, writable), n - 1, t1, writable) == |t.computers| + RowsAdded(id, n, t, writable)
  {
    NoRowMinusOne(t);
    assert |ComputerIds(t.computers)| == |t.computers| && |ComputerIds(t1.computers)| == |t1.computers|;
    if !NarrowsToNone(id) {
      FreshAfter(t.computers, t1.computers);
      RowFor(t, t1, Narrow(id), newId);
      RowFits(t1, newId);
    }
  }

  // ---------- a file that cannot be written ----------

  /** The file of a new installation. */
  function FirstFile(path: string): map<string, string> {
    map[path := LineOf(COMPUTER_ID, IntText(-1))]
  }

  lemma FirstFilePresents(path: string)
    ensures FileId(FirstFile(path), path) == Some(-1) && FirstFile(path) == map[path := "computer_id -1\n"]
  {
    IdLine(-1);
    FirstText();
  }

  lemma FirstText()
    ensures LineOf(COMPUTER_ID, IntText(-1)) == "computer_id -1\n"
  {
    assert IntText(-1) == "-1";
  }

  lemma IdLine(id: int)
    requires Fits(id, INT64)
    ensures StoredId(LoadText(LineOf(COMPUTER_ID, IntText(id)), map[])) == Some(id)
  {
    var key, value := COMPUTER_ID, IntText(id);
    IdEntryOk(id);
    LinesOfSaved(key, value, "");
    ParseSaved(key, value);
    var line := key + " " + value;
    assert LineOf(key, value) + "" == LineOf(key, value);
    assert Lines(LineOf(key, value)) == [line] + Lines("") == [line];
    assert LoadLines([line][1..], map[key := value]) == map[key := value];
    ReadWholeInt(id, INT64);
  }

  /** From there, with an empty database, any number of processes register the machine
      once if the file can be written, and once each if not. */
  lemma UnwritableConfig(reports: seq<SystemInfo>, t: Tables, junk: Junk)
    requires 0 < |reports| < INT32.high && t == Tables([], [], []) && forall r <- reports :: SysFits(r)
    ensures |Launches(-1, reports, t, true, junk).1.computers| == 1
    ensures |Launches(-1, reports, t, false, junk).1.computers| == |reports|
  {
    RestartsAdd(-1, reports, t, true, junk);
    RestartsAdd(-1, reports, t, false, junk);
  }
}
