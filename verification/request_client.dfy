/** RequestClient between two points where other threads may interfere: the critical
    section of sendRequest, and the turn of the worker that holds mtx_ from front()
    to pop() or to the token it gives back. The last lemmas show that the machine's
    worker, left alone, does the same. */
module RequestClients {
  import opened Wire
  import opened DeliveryMachine

  // ---------- the responses of a reply ----------

  /** executors_.emplace: a command whose id is taken changes nothing. */
  function Handle(executors: map<nat, string>, res: Response): map<nat, string> {
    if res.RunCommand? && res.id !in executors then executors[res.id := res.command] else executors
  }

  function HandleAll(executors: map<nat, string>, responses: seq<Response>): map<nat, string>
    decreases |responses|
  {
    if responses == [] then executors
    else Handle(HandleAll(executors, responses[..|responses| - 1]), responses[|responses| - 1])
  }

  function CountSysInfos(responses: seq<Response>): nat
    decreases |responses|
  {
    if responses == [] then 0
    else CountSysInfos(responses[..|responses| - 1]) + if responses[|responses| - 1].SendSystemInfo? then 1 else 0
  }

  /** What handling responses changes: executors_, and how many system infos were sent. */
  datatype Reporter = Reporter(executors: map<nat, string>, sysInfosSent: nat)

  function HandledBy(r: Reporter, responses: seq<Response>): Reporter {
    Reporter(HandleAll(r.executors, responses), r.sysInfosSent + CountSysInfos(responses))
  }

  /** Does sendSysInfo throw for response i? The connection breaks at response dies. */
  predicate Throws(responses: seq<Response>, dies: nat, i: nat)
    requires i < |responses|
  {
    i >= dies && responses[i].SendSystemInfo?
  }

  /** How many responses of a reply are handled before the first throw. */
  function Survived(responses: seq<Response>, dies: nat): nat
    decreases |responses|
  {
    if responses == [] then 0
    else
      var front := responses[..|responses| - 1];
      var n := Survived(front, dies);
      if n == |front| && !Throws(responses, dies, n) then n + 1 else n
  }

  lemma {:induction false} SurvivedAt(responses: seq<Response>, dies: nat, n: nat)
    requires n <= |responses| && forall i :: 0 <= i < n ==> !Throws(responses, dies, i)
    ensures Survived(responses, dies) >= n
    ensures n < |responses| && Throws(responses, dies, n) ==> Survived(responses, dies) == n
    decreases |responses|
  {
    if responses != [] {
      var front := responses[..|responses| - 1];
      assert forall i :: 0 <= i < |front| ==> Throws(front, dies, i) == Throws(responses, dies, i);
      SurvivedAt(front, dies, if n <= |front| then n else |front|);
      SurvivedWithin(front, dies);
    }
  }

  lemma {:induction false} SurvivedWithin(responses: seq<Response>, dies: nat)
    ensures Survived(responses, dies) <= |responses|
    ensures Survived(responses, dies) < |responses| ==> Throws(responses, dies, Survived(responses, dies))
    decreases |responses|
  {
    if responses != [] {
      var front := responses[..|responses| - 1];
      assert forall i :: 0 <= i < |front| ==> Throws(front, dies, i) == Throws(responses, dies, i);
      SurvivedWithin(front, dies);
    }
  }

  /** The responses that are handled. */
  function Upto(responses: seq<Response>, dies: nat): seq<Response> {
    SurvivedWithin(responses, dies);
    responses[..Survived(responses, dies)]
  }

  /** RmsReporterClient, as the worker sees it. */
  class RmsReporterClient {
    var executors: map<nat, string>
    var sysInfosSent: nat

    constructor ()
      ensures Value() == Reporter(map[], 0)
    {
      executors, sysInfosSent := map[], 0;
    }

    function Value(): Reporter
      reads this
    {
      Reporter(executors, sysInfosSent)
    }

    /** ok is false if sendSysInfo throws. */
    method HandleResponseData(res: Response, throws: bool) returns (ok: bool)
      modifies this
      ensures ok == !(res.SendSystemInfo? && throws)
      ensures executors == Handle(old(executors), res)
      ensures sysInfosSent == old(sysInfosSent) + if res.SendSystemInfo? && ok then 1 else 0
    {
      ok := true;
      match res
      case SendSystemInfo =>
        if throws {
          ok := false;
        } else {
          sysInfosSent := sysInfosSent + 1;
        }
      case RunCommand(id, command) =>
        if id !in executors {
          executors := executors[id := command];
        }
      case RunScript(_) =>
    }
  }

  /** How the worker's turn with mtx_ ends. Threw: an exception of sendSysInfo leaves
      the thread function, and with it the process. */
  datatype Turn = Popped | Kept | Threw

  datatype Value = Value(queue: seq<(Protocol, RmsRequest)>, counter: nat, reporter: Reporter)

  /** One turn of the worker, from front() on. reply: what client_->report put into
      res, None if it threw. */
  function TakeTurn(v: Value, reply: Option<seq<Response>>, dies: nat): (Value, Turn)
    requires v.queue != []
  {
    if !v.queue[0].0.KTcp? then (v.(queue := v.queue[1..]), Popped)
    else if reply.None? then (v.(counter := v.counter + 1), Kept)
    else
      var v1 := v.(reporter := HandledBy(v.reporter, Upto(reply.value, dies)));
      if Survived(reply.value, dies) < |reply.value| then (v1, Threw) else (v1.(queue := v.queue[1..]), Popped)
  }

  class RequestClient {
    var requestQueue: seq<(Protocol, RmsRequest)>
    var requestCounter: nat
    const reporter: RmsReporterClient

    constructor (reporter: RmsReporterClient)
      ensures this.reporter == reporter && requestQueue == [] && requestCounter == 0
    {
      this.reporter, requestQueue, requestCounter := reporter, [], 0;
    }

    function Contents(): Value
      reads this, reporter
    {
      Value(requestQueue, requestCounter, reporter.Value())
    }

    method SendRequest(protocol: Protocol, req: RmsRequest)
      modifies this
      ensures Contents() == old(Contents()).(queue := old(requestQueue) + [(protocol, req)], counter := old(requestCounter) + 1)
    {
      requestQueue := requestQueue + [(protocol, req)];
      requestCounter := requestCounter + 1;
    }

    /** The responses of the reply in order, up to one whose handling throws. */
    method SendTcpRequest(req: RmsRequest, reply: Option<seq<Response>>, dies: nat) returns (turn: Turn)
      modifies reporter
      ensures turn == if reply.None? then Kept else if Survived(reply.value, dies) < |reply.value| then Threw else Popped
      ensures reporter.Value() == if reply.None? then old(reporter.Value())
                                  else HandledBy(old(reporter.Value()), Upto(reply.value, dies))
    {
      if reply.None? {
        return Kept;
      }
      var data := reply.value;
      SurvivedWithin(data, dies);
      for i := 0 to |data|
        invariant forall k :: 0 <= k < i ==> !Throws(data, dies, k)
        invariant reporter.Value() == HandledBy(old(reporter.Value()), data[..i])
      {
        assert data[..i + 1][..i] == data[..i];
        var ok := reporter.HandleResponseData(data[i], i >= dies);
        if !ok {
          SurvivedAt(data, dies, i);
          return Threw;
        }
      }
      SurvivedAt(data, dies, |data|);
      assert data[..|data|] == data;
      turn := Popped;
    }

    /** With mtx_ held and a token taken: the head is sent, and either popped or kept
        with the token given back. A reconnection follows a failure. */
    method ServeHead(reply: Option<seq<Response>>, dies: nat) returns (turn: Turn)
      requires requestQueue != []
      modifies this, reporter
      ensures (Contents(), turn) == TakeTurn(old(Contents()), reply, dies)
    {
      var (protocol, req) := requestQueue[0];
      match protocol {
        case KHttp => turn := Popped;
        case KTcp => turn := SendTcpRequest(req, reply, dies);
        case KLog => turn := Popped;
      }
      if turn.Popped? {
        requestQueue := requestQueue[1..];
      } else if turn.Kept? {
        requestCounter := requestCounter + 1;
      }
    }
  }

  /** With fresh, distinct ids (DeliveryExecutors.FreshExecutor) every command of a
      reply gets its executor; no command is swallowed by emplace. */
  lemma {:induction false} EveryCommandRuns(executors: map<nat, string>, responses: seq<Response>, k: nat)
    requires k < |responses| && responses[k].RunCommand? && responses[k].id !in executors
    requires forall i, j :: 0 <= i < j < |responses| && responses[i].RunCommand? && responses[j].RunCommand? ==>
               responses[i].id != responses[j].id
    ensures var after := HandleAll(executors, responses);
            responses[k].id in after && after[responses[k].id] == responses[k].command
    decreases |responses|
  {
    var front := responses[..|responses| - 1];
    if k == |front| {
      OnlyCommands(executors, front, responses[k].id);
    } else {
      EveryCommandRuns(executors, front, k);
    }
  }

  lemma {:induction false} OnlyCommands(executors: map<nat, string>, responses: seq<Response>, id: nat)
    requires id !in executors && forall i :: 0 <= i < |responses| && responses[i].RunCommand? ==> responses[i].id != id
    ensures id !in HandleAll(executors, responses)
    decreases |responses|
  {
    if responses != [] {
      OnlyCommands(executors, responses[..|responses| - 1], id);
    }
  }

  // ---------- the machine's worker, left alone ----------

  /** The executor thread that a response starts, if it is a command. */
  function SpawnedBy(res: Response): seq<Producer> {
    if res.RunCommand? then [Producer(Executor(res.id), true, Looping)] else []
  }

  /** The executor threads that a reply starts. */
  function Spawned(reply: seq<Issued>): seq<Producer> {
    if reply == [] then [] else SpawnedBy(reply[0].res) + Spawned(reply[1..])
  }

  function Steps(n: nat): seq<Action> { seq(n, _ => Work(Ok)) }

  /** The state once the rest of a reply is handled and the head popped. */
  function AfterPop(s: State, rest: seq<Issued>): State
    requires |s.client.queue| > 0
  {
    s.(worker := Testing, producers := s.producers + Spawned(rest),
       client := s.client.(queue := s.client.queue[1..], locked := false),
       past := s.past.(handled := s.past.handled + rest, popped := s.past.popped + [s.client.queue[0]]))
  }

  lemma FirstStep(s: State, n: nat)
    requires n > 0 && Enabled(s, Work(Ok)) && IsRun(Apply(s, Work(Ok)), Steps(n - 1))
    ensures IsRun(s, Steps(n)) && Exec(s, Steps(n)) == Exec(Apply(s, Work(Ok)), Steps(n - 1))
  {
    assert Steps(n)[1..] == Steps(n - 1);
  }

  lemma PopsHead(s: State)
    requires s.worker == Handling([]) && |s.client.queue| > 0
    ensures IsRun(s, Steps(2)) && Exec(s, Steps(2)) == AfterPop(s, [])
  {
    var s1 := Apply(s, Work(Ok));
    FirstStep(s1, 1);
    FirstStep(s, 2);
    assert s.producers + [] == s.producers && s.past.handled + [] == s.past.handled;
  }

  /** Handling a whole reply and popping the head. */
  lemma {:induction false} HandlesReply(s: State, rest: seq<Issued>)
    requires s.worker == Handling(rest) && |s.client.queue| > 0
    ensures IsRun(s, Steps(|rest| + 2)) && Exec(s, Steps(|rest| + 2)) == AfterPop(s, rest)
    decreases |rest|
  {
    if rest == [] {
      PopsHead(s);
    } else {
      HandlesReply(Apply(s, Work(Ok)), rest[1..]);
      FirstStep(s, |rest| + 2);
      AfterPopNext(s, rest);
    }
  }

  lemma AfterPopNext(s: State, rest: seq<Issued>)
    requires rest != [] && s.worker == Handling(rest) && |s.client.queue| > 0
    ensures AfterPop(Apply(s, Work(Ok)), rest[1..]) == AfterPop(s, rest)
  {
    assert rest == [rest[0]] + rest[1..];
    Associate(s.past.handled, [rest[0]], rest[1..]);
    Associate(s.producers, SpawnedBy(rest[0].res), Spawned(rest[1..]));
    assert s.producers + [] == s.producers;
  }

  /** A successful send, with no other thread in between: the effect of ServeHead. */
  lemma ServesHead(s: State)
    requires s.worker.Serving? && WorkerEnabled(s) && s.client.queue[0].protocol.KTcp?
    ensures IsRun(s, Steps(|Reply(s)| + 3))
    ensures Exec(s, Steps(|Reply(s)| + 3)) == AfterPop(ServerReport(s), Reply(s))
  {
    var s1 := Apply(s, Work(Ok));
    HandlesReply(s1, Reply(s));
    FirstStep(s, |Reply(s)| + 3);
  }

  /** A failed send: the queue is kept and the token given back, whether the server
      ingested the request or not. */
  lemma KeepsHead(s: State, outcome: Outcome)
    requires s.worker.Serving? && WorkerEnabled(s) && s.client.queue[0].protocol.KTcp? && !outcome.Ok?
    ensures IsRun(s, [Work(outcome), Work(Ok)])
    ensures var s' := Exec(s, [Work(outcome), Work(Ok)]);
            && s'.worker == Connecting(true) && s'.client == s.client.(sem := s.client.sem + 1)
            && s'.past.popped == s.past.popped && s'.past.handled == s.past.handled
            && s'.server == if outcome.FailBefore? then s.server else ServerReport(s).server
  {
    assert [Work(outcome), Work(Ok)][1..] == [Work(Ok)] && [Work(Ok)][1..] == [];
    var s1 := Apply(s, Work(outcome));
    assert Exec(s1, [Work(Ok)]) == Exec(Apply(s1, Work(Ok)), []);
  }

  // ---------- the machine and the classes ----------

  function QueueContents(queue: seq<Entry>): seq<(Protocol, RmsRequest)> {
    seq(|queue|, i requires 0 <= i < |queue| => (queue[i].protocol, queue[i].req))
  }

  function Responses(reply: seq<Issued>): seq<Response> {
    seq(|reply|, i requires 0 <= i < |reply| => reply[i].res)
  }

  /** The state of the machine, as the classes hold it. */
  function ContentsOf(s: State): Value {
    Value(QueueContents(s.client.queue), s.client.sem, HandledBy(Reporter(map[], 0), Responses(s.past.handled)))
  }

  predicate OnlyWork(actions: seq<Action>) {
    forall i :: 0 <= i < |actions| ==> actions[i].Work?
  }

  /** The worker gets from s to s' while no other thread steps. */
  ghost predicate WorkerReaches(s: State, s': State) {
    exists actions :: IsRun(s, actions) && OnlyWork(actions) && Exec(s, actions) == s'
  }

  lemma WorkerStays(s: State)
    ensures WorkerReaches(s, s)
  {
    assert IsRun(s, []) && Exec(s, []) == s;
  }

  lemma WorkerStep(from: State, s: State, outcome: Outcome)
    requires WorkerReaches(from, s) && Enabled(s, Work(outcome))
    ensures WorkerReaches(from, Apply(s, Work(outcome)))
  {
    var actions :| IsRun(from, actions) && OnlyWork(actions) && Exec(from, actions) == s;
    RunAppend(from, actions, Work(outcome));
    assert OnlyWork(actions + [Work(outcome)]);
  }

  /** After the first n responses of the reply. */
  function HandledUpTo(s: State, reply: seq<Issued>, n: nat): State
    requires n <= |reply|
  {
    s.(worker := Handling(reply[n..]), producers := s.producers + Spawned(reply[..n]), past := s.past.(handled := s.past.handled + reply[..n]))
  }

  lemma {:induction false} SpawnedOneMore(reply: seq<Issued>, e: Issued)
    ensures Spawned(reply + [e]) == Spawned(reply) + SpawnedBy(e.res)
    decreases |reply|
  {
    if reply == [] {
      assert Spawned([e][1..]) == [] && reply + [e] == [e];
    } else {
      var first := SpawnedBy(reply[0].res);
      SpawnedOneMore(reply[1..], e);
      assert (reply + [e])[1..] == reply[1..] + [e] && (reply + [e])[0] == reply[0];
      Associate(first, Spawned(reply[1..]), SpawnedBy(e.res));
    }
  }

  lemma Associate<T>(a: seq<T>, b: seq<T>, c: seq<T>)
    ensures a + (b + c) == (a + b) + c
  {
  }

  lemma {:induction false} HandlesUpTo(from: State, s: State, reply: seq<Issued>, n: nat)
    requires WorkerReaches(from, s) && s.worker == Handling(reply) && n <= |reply|
    ensures WorkerReaches(from, HandledUpTo(s, reply, n))
  {
    if n == 0 {
      assert HandledUpTo(s, reply, 0) == s by {
        assert s.producers + [] == s.producers && s.past.handled + [] == s.past.handled && reply[0..] == reply;
      }
    } else {
      HandlesUpTo(from, s, reply, n - 1);
      var s1 := HandledUpTo(s, reply, n - 1);
      WorkerStep(from, s1, Ok);
      HandlesOneMore(s, reply, n - 1);
    }
  }

  lemma HandlesOneMore(s: State, reply: seq<Issued>, n: nat)
    requires n < |reply| && s.worker == Handling(reply) && Enabled(HandledUpTo(s, reply, n), Work(Ok))
    ensures Apply(HandledUpTo(s, reply, n), Work(Ok)) == HandledUpTo(s, reply, n + 1)
  {
    assert reply[..n + 1] == reply[..n] + [reply[n]] && reply[n..][1..] == reply[n + 1..];
    SpawnedOneMore(reply[..n], reply[n]);
    Associate(s.producers, Spawned(reply[..n]), SpawnedBy(reply[n].res));
    assert (s.past.handled + reply[..n]) + [reply[n]] == s.past.handled + reply[..n + 1];
  }

  lemma {:induction false} HandledInTurn(r: Reporter, a: seq<Response>, b: seq<Response>)
    ensures HandledBy(r, a + b) == HandledBy(HandledBy(r, a), b)
    decreases |b|
  {
    if b == [] {
      assert a + b == a;
    } else {
      assert (a + b)[..|a + b| - 1] == a + b[..|b| - 1];
      HandledInTurn(r, a, b[..|b| - 1]);
    }
  }

  lemma ContentsAfter(s: State, reply: seq<Issued>, n: nat)
    requires n <= |reply|
    ensures ContentsOf(HandledUpTo(s, reply, n))
         == ContentsOf(s).(reporter := HandledBy(ContentsOf(s).reporter, Responses(reply)[..n]))
  {
    assert Responses(s.past.handled + reply[..n]) == Responses(s.past.handled) + Responses(reply)[..n];
    HandledInTurn(Reporter(map[], 0), Responses(s.past.handled), Responses(reply)[..n]);
  }

  predicate EndsTurn(turn: Turn, w: WorkerPc) {
    match turn
    case Popped => w == Testing
    case Kept => w == Connecting(true)
    case Threw => w == Crashed
  }

  /** The worker can get from s to the end of its turn, and to these contents. */
  ghost predicate TurnDone(s: State, v: Value, turn: Turn) {
    exists s' :: WorkerReaches(s, s') && ContentsOf(s') == v && EndsTurn(turn, s'.worker)
  }

  lemma PopTurn(from: State, s: State)
    requires WorkerReaches(from, s) && s.worker.Popping? && s.client.queue != []
    ensures TurnDone(from, ContentsOf(s).(queue := ContentsOf(s).queue[1..]), Popped)
  {
    WorkerStep(from, s, Ok);
    assert QueueContents(s.client.queue[1..]) == QueueContents(s.client.queue)[1..];
  }

  lemma KeepTurn(from: State, s: State)
    requires WorkerReaches(from, s) && s.worker.GivingBack?
    ensures TurnDone(from, ContentsOf(s).(counter := ContentsOf(s).counter + 1), Kept)
  {
    WorkerStep(from, s, Ok);
  }

  lemma ThrowTurn(from: State, s: State)
    requires WorkerReaches(from, s) && s.worker.Handling? && s.worker.rest != [] && s.worker.rest[0].res.SendSystemInfo?
    ensures TurnDone(from, ContentsOf(s), Threw)
  {
    WorkerStep(from, s, FailBefore);
  }

  lemma ReplyTurn(from: State, s: State, reply: seq<Issued>, dies: nat)
    requires WorkerReaches(from, s) && s.worker == Handling(reply)
    requires s.client.queue != [] && s.client.queue[0].protocol.KTcp?
    ensures var (v, turn) := TakeTurn(ContentsOf(s), Some(Responses(reply)), dies); TurnDone(from, v, turn)
  {
    SurvivedWithin(Responses(reply), dies);
    var n := Survived(Responses(reply), dies);
    HandlesUpTo(from, s, reply, n);
    ContentsAfter(s, reply, n);
    var s2 := HandledUpTo(s, reply, n);
    if n < |reply| {
      assert Responses(reply)[n].SendSystemInfo?;
      ThrowTurn(from, s2);
    } else {
      WorkerStep(from, s2, Ok);
      PopTurn(from, s2.(worker := Popping));
    }
  }

  /** The reply comes from the server's half of report. */
  lemma ReportTurn(s: State, dies: nat)
    requires s.worker.Serving? && WorkerEnabled(s) && s.client.queue[0].protocol.KTcp?
    ensures var (v, turn) := TakeTurn(ContentsOf(s), Some(Responses(Reply(s))), dies); TurnDone(s, v, turn)
  {
    WorkerStays(s);
    WorkerStep(s, s, Ok);
    var s1 := Apply(s, Work(Ok));
    assert ContentsOf(s1) == ContentsOf(s);
    ReplyTurn(s, s1, Reply(s), dies);
  }

  lemma FailedTurn(s: State)
    requires s.worker.Serving? && WorkerEnabled(s) && s.client.queue[0].protocol.KTcp?
    ensures TurnDone(s, ContentsOf(s).(counter := ContentsOf(s).counter + 1), Kept)
  {
    WorkerStays(s);
    WorkerStep(s, s, FailBefore);
    KeepTurn(s, s.(worker := GivingBack));
  }

  lemma OtherTurn(s: State)
    requires s.worker.Serving? && WorkerEnabled(s) && !s.client.queue[0].protocol.KTcp?
    ensures TurnDone(s, ContentsOf(s).(queue := ContentsOf(s).queue[1..]), Popped)
  {
    WorkerStays(s);
    WorkerStep(s, s, Ok);
    PopTurn(s, s.(worker := Popping));
  }

  /** Whatever the server and the connection do, the machine's worker can take its turn
      so that the state becomes the one that ServeHead computes. */
  lemma WorkerTakesTurn(s: State, reply: Option<seq<Response>>, dies: nat)
    requires s.worker.Serving? && WorkerEnabled(s)
    requires reply.Some? ==> reply.value == Responses(Reply(s))
    ensures var (v, turn) := TakeTurn(ContentsOf(s), reply, dies); TurnDone(s, v, turn)
  {
    if !s.client.queue[0].protocol.KTcp? {
      OtherTurn(s);
    } else if reply.None? {
      FailedTurn(s);
    } else {
      ReportTurn(s, dies);
    }
  }

  /** A producer's push and release, with no other thread in between, is SendRequest. */
  lemma ProducerSends(s: State, i: nat, a: Action)
    requires a.Produce? && a.i == i && Enabled(s, a) && s.producers[i].pc.Sending?
    ensures Enabled(Apply(s, a), a)
    ensures var pc := s.producers[i].pc;
            ContentsOf(Apply(Apply(s, a), a))
              == ContentsOf(s).(queue := ContentsOf(s).queue + [(pc.protocol, pc.req)], counter := ContentsOf(s).counter + 1)
    ensures Apply(Apply(s, a), a).producers[i].pc == if s.producers[i].kind.Consumer? then Sleeping(0) else Exited
  {
  }
}
