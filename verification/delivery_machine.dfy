/** The reporter/server delivery protocol as a step machine: one program counter
    for every producer thread, one for the worker thread of RequestClient, one for
    the main thread. An action is one atomic step of one thread; what the
    environment decides (does a call fail, what is sent) is part of the action, so
    Apply is a function and a run is a sequence of actions. */
module DeliveryMachine {
  import opened Wire

  datatype Protocol = KTcp | KHttp | KLog

  /** A queued request. no is its position in the history of all enqueued requests. */
  datatype Entry = Entry(no: nat, protocol: Protocol, req: RmsRequest)

  /** A response put into a session. no is its position in the history of all issued ones. */
  datatype Issued = Issued(no: nat, session: nat, res: Response)

  datatype ProducerKind = Consumer(timeout: nat) | Executor(id: nat)

  datatype ProducerPc =
    | Unstarted
    | Looping                                        // consumer: tests is_consuming_; executor: command runs
    | Sending(protocol: Protocol, req: RmsRequest)   // in sendRequest, before mtx_
    | Releasing                                      // pushed, token not yet released
    | Sleeping(elapsed: nat)
    | Exited

  datatype Producer = Producer(kind: ProducerKind, consuming: bool, pc: ProducerPc)

  /** retry: handshakeTCP was called after a failed send, with mtx_ held. */
  datatype WorkerPc =
    | NotStarted
    | Storing                      // poll_requests_.store(true)
    | Connecting(retry: bool)      // the open() loop
    | Opened(retry: bool)          // connected, tests poll_requests_
    | Greeting(retry: bool)        // client_->handshake
    | PostRetry                    // tests poll_requests_ after a reconnection
    | Testing                      // while (poll_requests_.load())
    | Acquiring                    // request_counter_.acquire()
    | Acquired                     // token taken, tests poll_requests_
    | Locking                      // waits for mtx_
    | Serving                      // front() and the send
    | Handling(rest: seq<Issued>)  // the reply's responses, one at a time
    | Popping                      // the send succeeded
    | GivingBack                   // the send failed: request_counter_.release()
    | Finished(took: bool)         // took: left with a token that it never used
    | Crashed                      // an exception left the thread function

  datatype MainPc =
    | Starting(i: nat) | Running
    | Stopping(i: nat) | Joining(i: nat)
    | StorePoll | ReleaseStop | JoinWorker | Closing | Done

  datatype Session = Session(queue: seq<Issued>, added: seq<Issued>, drained: seq<Issued>)

  /** RequestClient: request_queue_, request_counter_ (read as a counter),
      poll_requests_, and whether the worker holds mtx_. */
  datatype Client = Client(queue: seq<Entry>, sem: nat, poll: bool, locked: bool)

  /** The sessions in connection order, the next executor row id, and histories:
      ingested requests, issued responses, responses put into replies. */
  datatype Server = Server(sessions: seq<Session>, nextExecutor: nat, log: seq<Entry>, issued: seq<Issued>, drained: seq<Issued>)

  /** Histories of the reporter: requests pushed and popped, responses handled,
      responses that were in a reply but never reached handleResponseData. */
  datatype Past = Past(enqueued: seq<Entry>, popped: seq<Entry>, handled: seq<Issued>, lost: seq<Issued>)

  datatype State = State(
    consumers: nat, producers: seq<Producer>, worker: WorkerPc, main: MainPc,
    client: Client, server: Server, past: Past)

  datatype Outcome = Ok | FailBefore | FailAfter

  datatype Ask = AskSystemInfo | AskCommand(command: string) | AskScript(filename: string)

  datatype Action =
    | Idle
    | Main
    | Signal
    | Produce(i: nat, protocol: Protocol, req: RmsRequest)
    | Work(outcome: Outcome)
    | Issue(session: nat, ask: Ask)

  function Init(timeouts: seq<nat>): State {
    State(|timeouts|, seq(|timeouts|, i requires 0 <= i < |timeouts| => Producer(Consumer(timeouts[i]), false, Unstarted)),
          NotStarted, Starting(0), Client([], 0, false, false), Server([], 1, [], [], []), Past([], [], [], []))
  }

  /** What a producer hands to sendRequest: a consumer never sends an executor
      result, an executor sends exactly its own. */
  predicate Sends(kind: ProducerKind, protocol: Protocol, req: RmsRequest) {
    match kind
    case Consumer(_) => forall d <- req.data :: !d.ExecutorResult?
    case Executor(id) =>
      protocol == KTcp && |req.data| == 1 && req.data[0].ExecutorResult? && req.data[0].id == id
  }

  predicate Enabled(s: State, a: Action) {
    if a.Idle? then true
    else if a.Issue? then a.session < |s.server.sessions|
    else if s.worker.Crashed? then false  // std::terminate ended the process
    else match a
      case Signal => s.main.Running?
      case Main => MainEnabled(s)
      case Produce(i, protocol, req) =>
        && i < |s.producers|
        && var p := s.producers[i];
           match p.pc {
             case Unstarted => false
             case Looping => (p.kind.Consumer? && !p.consuming) || Sends(p.kind, protocol, req)
             case Sending(_, _) => !s.client.locked
             case Releasing => true
             case Sleeping(_) => true
             case Exited => false
           }
      case Work(_) => WorkerEnabled(s)
  }

  predicate MainEnabled(s: State) {
    match s.main
    case Running => false
    case Joining(i) => i < |s.producers| && s.producers[i].pc.Exited?
    case JoinWorker => s.worker.Finished?
    case Done => false
    case Starting(i) => i < s.consumers ==> i < |s.producers|
    case Stopping(i) => i < s.consumers ==> i < |s.producers|
    case _ => true
  }

  /** Serving needs a head to look at: front() of an empty queue is undefined. */
  predicate WorkerEnabled(s: State) {
    match s.worker
    case NotStarted => false
    case Acquiring => s.client.sem > 0
    case Locking => !s.client.locked
    case Serving => |s.client.queue| > 0 && |s.server.sessions| > 0
    case Popping => |s.client.queue| > 0
    case Finished(_) => false
    case Crashed => false
    case _ => true
  }

  function Apply(s: State, a: Action): State
    requires Enabled(s, a)
  {
    match a
    case Idle => s
    case Main => ApplyMain(s)
    case Signal => s.(main := Stopping(0))
    case Produce(i, protocol, req) => ApplyProducer(s, i, protocol, req)
    case Work(outcome) => ApplyWorker(s, outcome)
    case Issue(session, ask) => ApplyIssue(s, session, ask)
  }

  /** RmsReporterClient::start, then ::stop after the signal. */
  function ApplyMain(s: State): State
    requires MainEnabled(s)
  {
    match s.main
    case Starting(i) =>
      if i < s.consumers then
        s.(producers := s.producers[i := s.producers[i].(consuming := true, pc := Looping)], main := Starting(i + 1))
      else if s.client.poll then s.(main := Running)
      else s.(worker := Storing, main := Running)
    case Stopping(i) =>
      if i < s.consumers then
        s.(producers := s.producers[i := s.producers[i].(consuming := false)], main := Joining(i))
      else s.(main := StorePoll)
    case Joining(i) => s.(main := Stopping(i + 1))
    case StorePoll => s.(client := s.client.(poll := false), main := ReleaseStop)
    case ReleaseStop => s.(client := s.client.(sem := s.client.sem + 1), main := JoinWorker)
    case JoinWorker => s.(main := Closing)
    case Closing => s.(main := Done)
  }

  function AfterSend(kind: ProducerKind): ProducerPc {
    if kind.Consumer? then Sleeping(0) else Exited
  }

  function ApplyProducer(s: State, i: nat, protocol: Protocol, req: RmsRequest): State
    requires Enabled(s, Produce(i, protocol, req))
  {
    var p := s.producers[i];
    match p.pc
    case Looping =>
      if p.kind.Consumer? && !p.consuming then s.(producers := s.producers[i := p.(pc := Exited)])
      else s.(producers := s.producers[i := p.(pc := Sending(protocol, req))])
    case Sending(protocol', req') =>
      var e := Entry(|s.past.enqueued|, protocol', req');
      s.(client := s.client.(queue := s.client.queue + [e]), past := s.past.(enqueued := s.past.enqueued + [e]),
         producers := s.producers[i := p.(pc := Releasing)])
    case Releasing =>
      s.(client := s.client.(sem := s.client.sem + 1), producers := s.producers[i := p.(pc := AfterSend(p.kind))])
    case Sleeping(elapsed) =>
      if p.kind.Consumer? && elapsed < p.kind.timeout && p.consuming then
        s.(producers := s.producers[i := p.(pc := Sleeping(elapsed + 1))])
      else s.(producers := s.producers[i := p.(pc := Looping)])
  }

  function ApplyIssue(s: State, sid: nat, ask: Ask): State
    requires sid < |s.server.sessions|
  {
    var res := match ask
      case AskSystemInfo => SendSystemInfo
      case AskCommand(command) => RunCommand(s.server.nextExecutor, command)
      case AskScript(filename) => RunScript(filename);
    var e := Issued(|s.server.issued|, sid, res);
    var session := s.server.sessions[sid];
    s.(server := s.server.(
         sessions := s.server.sessions[sid := session.(queue := session.queue + [e], added := session.added + [e])],
         issued := s.server.issued + [e],
         nextExecutor := if ask.AskCommand? then s.server.nextExecutor + 1 else s.server.nextExecutor))
  }

  /** The server's half of report: the newest session's responses go into the
      reply, then the request is ingested. */
  function ServerReport(s: State): State
    requires |s.client.queue| > 0 && |s.server.sessions| > 0
  {
    var cur := |s.server.sessions| - 1;
    var session := s.server.sessions[cur];
    s.(server := s.server.(
         sessions := s.server.sessions[cur := session.(queue := [], drained := session.drained + session.queue)],
         drained := s.server.drained + session.queue,
         log := s.server.log + [s.client.queue[0]]))
  }

  function Reply(s: State): seq<Issued>
    requires |s.server.sessions| > 0
  {
    s.server.sessions[|s.server.sessions| - 1].queue
  }

  /** handshakeTCP returns, with 0 or with -1: the first call is followed by the
      polling loop (on -1 poll_requests_ is false and ends both loops). */
  function Returned(retry: bool): WorkerPc {
    if retry then PostRetry else Testing
  }

  function ApplyWorker(s: State, outcome: Outcome): State
    requires WorkerEnabled(s)
  {
    match s.worker
    case Storing => s.(client := s.client.(poll := true), worker := Connecting(false))
    case Connecting(_) => ApplyConnection(s, outcome)
    case Opened(_) => ApplyConnection(s, outcome)
    case Greeting(_) => ApplyConnection(s, outcome)
    case PostRetry => s.(client := s.client.(locked := false), worker := if s.client.poll then Testing else Finished(false))
    case Testing => s.(worker := if s.client.poll then Acquiring else Finished(false))
    case Acquiring => s.(client := s.client.(sem := s.client.sem - 1), worker := Acquired)
    case Acquired => s.(worker := if s.client.poll then Locking else Finished(true))
    case Locking => s.(client := s.client.(locked := true), worker := Serving)
    case Serving => ApplyServing(s, outcome)
    case Handling(rest) => ApplyHandling(s, rest, outcome)
    case Popping =>
      s.(client := s.client.(queue := s.client.queue[1..], locked := false),
         past := s.past.(popped := s.past.popped + [s.client.queue[0]]), worker := Testing)
    case GivingBack => s.(client := s.client.(sem := s.client.sem + 1), worker := Connecting(true))
  }

  /** handshakeTCP: open until connected or stopped, then hand the computer id over. */
  function ApplyConnection(s: State, outcome: Outcome): State
    requires s.worker.Connecting? || s.worker.Opened? || s.worker.Greeting?
  {
    var retry := s.worker.retry;
    match s.worker
    case Connecting(_) =>
      if !s.client.poll then s.(worker := Returned(retry))
      else if outcome.Ok? then s.(server := s.server.(sessions := s.server.sessions + [Session([], [], [])]), worker := Opened(retry))
      else s
    case Opened(_) => s.(worker := if s.client.poll then Greeting(retry) else Returned(retry))
    case Greeting(_) => s.(worker := if outcome.Ok? then Returned(retry) else Crashed)
  }

  /** The switch over the head's protocol. sendHttpRequest and sendLogRequest always succeed. */
  function ApplyServing(s: State, outcome: Outcome): State
    requires |s.client.queue| > 0 && |s.server.sessions| > 0
  {
    if !s.client.queue[0].protocol.KTcp? then s.(worker := Popping)
    else match outcome
      case Ok => ServerReport(s).(worker := Handling(Reply(s)))
      case FailBefore => s.(worker := GivingBack)
      case FailAfter => ServerReport(s).(past := s.past.(lost := s.past.lost + Reply(s)), worker := GivingBack)
  }

  /** handleResponseData on the first response of rest. Only sendSysInfo can throw. */
  function ApplyHandling(s: State, rest: seq<Issued>, outcome: Outcome): State {
    if rest == [] then s.(worker := Popping)
    else if rest[0].res.SendSystemInfo? && !outcome.Ok? then s.(past := s.past.(lost := s.past.lost + rest), worker := Crashed)
    else
      var s1 := s.(past := s.past.(handled := s.past.handled + [rest[0]]), worker := Handling(rest[1..]));
      if rest[0].res.RunCommand? then
        s1.(producers := s.producers + [Producer(Executor(rest[0].res.id), true, Looping)])
      else s1
  }

  /** stop()'s store of false does not come before the worker's store of true. */
  predicate Ordered(s: State, a: Action) {
    a.Main? && s.main.StorePoll? ==> !s.worker.NotStarted? && !s.worker.Storing?
  }

  /** Can every action of the sequence be taken, one after the other? */
  predicate IsRun(s: State, actions: seq<Action>)
    decreases |actions|
  {
    |actions| > 0 ==> Enabled(s, actions[0]) && IsRun(Apply(s, actions[0]), actions[1..])
  }

  function Exec(s: State, actions: seq<Action>): State
    requires IsRun(s, actions)
    decreases |actions|
  {
    if |actions| == 0 then s else Exec(Apply(s, actions[0]), actions[1..])
  }

  /** A run in which stop() follows the worker's store of poll_requests_. */
  predicate IsOrderedRun(s: State, actions: seq<Action>)
    requires IsRun(s, actions)
    decreases |actions|
  {
    |actions| > 0 ==> Ordered(s, actions[0]) && IsOrderedRun(Apply(s, actions[0]), actions[1..])
  }

  lemma {:induction false} RunAppend(s: State, actions: seq<Action>, a: Action)
    requires IsRun(s, actions) && Enabled(Exec(s, actions), a)
    ensures IsRun(s, actions + [a]) && Exec(s, actions + [a]) == Apply(Exec(s, actions), a)
    decreases |actions|
  {
    if |actions| == 0 {
      assert actions + [a] == [a];
    } else {
      assert (actions + [a])[0] == actions[0] && (actions + [a])[1..] == actions[1..] + [a];
      RunAppend(Apply(s, actions[0]), actions[1..], a);
    }
  }
}
