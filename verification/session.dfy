/** RmsClient: the server's end of one connection. */
module Sessions {
  import opened Wire
  import opened Text
  import opened Scripts
  import opened Database
  import opened Computers
  import opened ExecutorTables

  /** added and drained record what ever entered and left responseQueue. */
  class RmsClient {
    var computer: RmsComputer?
    var responseQueue: seq<Response>
    ghost var added: seq<Response>
    ghost var drained: seq<Response>

    ghost predicate Valid()
      reads this
    {
      drained + responseQueue == added
    }

    constructor ()
      ensures Valid() && computer == null && responseQueue == [] && added == []
    {
      computer, responseQueue, added, drained := null, [], [], [];
    }

    method AddResponse(res: Response)
      requires Valid()
      modifies this`responseQueue, this`added
      ensures Valid() && added == old(added) + [res] && responseQueue == old(responseQueue) + [res]
    {
      responseQueue := responseQueue + [res];
      added := added + [res];
    }

    /** A command goes out only with the id of its own row; a failed insert drops it. */
    method RunCommand(command: string, now: int, table: ExecutorTable)
      requires Valid() && computer != null && table.Valid()
      modifies this`responseQueue, this`added, table
      ensures Valid() && table.Valid()
      ensures var success := Passes(old(table.script), 0);
              if success then
                && table.rows == old(table.rows) + [ExecutorRow(FreshId(ExecutorIds(old(table.rows))), computer.computerId, now, command, None)]
                && added == old(added) + [Response.RunCommand(FreshId(ExecutorIds(old(table.rows))), command)]
              else table.rows == old(table.rows) && added == old(added)
    {
      var success, id := table.Insert(computer.computerId, now, command);
      if success {
        AddResponse(Response.RunCommand(id, command));
      }
    }

    /** The drain loop of report: everything queued goes into the reply, in order, and
        leaves the queue. Ingesting the request comes after it. */
    method Report() returns (dataCount: nat, data: seq<Response>)
      requires Valid()
      modifies this`responseQueue, this`drained
      ensures Valid() && data == old(responseQueue) && dataCount == |data| && responseQueue == []
      ensures drained == old(drained) + data
    {
      dataCount, data := 0, [];
      while responseQueue != []
        invariant Valid() && data + responseQueue == old(responseQueue) && dataCount == |data|
        invariant drained == old(drained) + data
        decreases |responseQueue|
      {
        assert responseQueue == [responseQueue[0]] + responseQueue[1..];
        dataCount := dataCount + 1;
        data := data + [responseQueue[0]];
        drained := drained + [responseQueue[0]];
        responseQueue := responseQueue[1..];
      }
    }

    method Handshake(id: int, sysInfo: SystemInfo, db: RmsDatabase, junk: Junk) returns (newId: int)
      modifies this`computer, db
      ensures computer != null && fresh(computer) && newId == computer.computerId
      ensures (computer.Contents(), db.tables) == Presented(id, sysInfo, old(db.tables), junk)
    {
      computer := new RmsComputer(Narrow(id));
      if id != -1 {
        computer.GetFromDB(db, junk);
        computer.SetSysInfo(sysInfo);
        computer.UpdateDB(db);
      } else {
        computer.SetSysInfo(sysInfo);
        computer.AddToDB(db);
      }
      newId := computer.computerId;
    }

    method SendSysInfo(sysInfo: SystemInfo, db: RmsDatabase)
      requires computer != null
      modifies computer, db
      ensures (computer.Contents(), db.tables) == SendSys(old(computer.Contents()), sysInfo, old(db.tables))
    {
      computer.SetSysInfo(sysInfo);
      computer.UpdateDB(db);
    }
  }
}
