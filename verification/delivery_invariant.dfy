/** What every step of the delivery protocol keeps. */
module DeliveryInvariant {
  import opened Wire
  import opened Sequences
  import opened DeliveryMachine

  // ---------- threads and the mutex ----------

  /** The worker is between the lock_guard of the polling loop and its end. */
  predicate HoldsMutex(w: WorkerPc) {
    w.Serving? || w.Handling? || w.Popping? || w.GivingBack? || w.PostRetry?
    || (w.Connecting? && w.retry) || (w.Opened? && w.retry) || (w.Greeting? && w.retry)
  }

  /** stop() has stored false into poll_requests_. */
  predicate PollStored(m: MainPc) {
    m.ReleaseStop? || m.JoinWorker? || m.Closing? || m.Done?
  }

  /** stop() has released its own token. */
  predicate StopReleased(m: MainPc) {
    m.JoinWorker? || m.Closing? || m.Done?
  }

  /** How many consumers RmsReporterClient::stop has joined, of n. */
  function Joined(main: MainPc, n: nat): nat {
    match main
    case Starting(_) => 0
    case Running => 0
    case Stopping(i) => i
    case Joining(i) => i
    case _ => n
  }

  predicate KindsOk(n: nat, ps: seq<Producer>) {
    && n <= |ps|
    && (forall j :: 0 <= j < |ps| ==> (ps[j].kind.Consumer? <==> j < n))
    && (forall j :: 0 <= j < |ps| && ps[j].pc.Sending? ==> Sends(ps[j].kind, ps[j].pc.protocol, ps[j].pc.req))
  }

  /** start() and stop() go through the n consumers in order. */
  predicate ThreadsOk(n: nat, ps: seq<Producer>, main: MainPc)
    requires n <= |ps|
  {
    && (main.Starting? ==> main.i <= n == |ps|)
    && (forall j :: 0 <= j < |ps| ==> (ps[j].pc.Unstarted? <==> main.Starting? && main.i <= j))
    && (main.Joining? ==> main.i < n && !ps[main.i].consuming)
    && Joined(main, n) <= n
    && (forall j :: 0 <= j < Joined(main, n) ==> ps[j].pc.Exited?)
  }

  ghost predicate Layout(s: State) {
    && KindsOk(s.consumers, s.producers)
    && ThreadsOk(s.consumers, s.producers, s.main)
    && (s.main.Starting? <==> s.worker.NotStarted?)
    && (s.main.Closing? || s.main.Done? ==> s.worker.Finished?)
  }

  lemma LayoutStep(s: State, a: Action)
    requires Layout(s) && MutexHeld(s) && Enabled(s, a)
    ensures Layout(Apply(s, a))
  {
    match a
    case Main => LayoutMain(s);
    case Produce(i, protocol, req) => LayoutProducer(s, i, protocol, req);
    case Work(outcome) => LayoutWorker(s, outcome);
    case _ =>
  }

  lemma LayoutMain(s: State)
    requires Layout(s) && MutexHeld(s) && MainEnabled(s)
    ensures Layout(ApplyMain(s))
  {
  }

  lemma LayoutProducer(s: State, i: nat, protocol: Protocol, req: RmsRequest)
    requires Layout(s) && Enabled(s, Produce(i, protocol, req))
    ensures Layout(ApplyProducer(s, i, protocol, req))
  {
    var p := ApplyProducer(s, i, protocol, req).producers[i];
    KindsUpdate(s.consumers, s.producers, s.main, i, p);
  }

  lemma KindsUpdate(n: nat, ps: seq<Producer>, main: MainPc, i: nat, p: Producer)
    requires KindsOk(n, ps) && ThreadsOk(n, ps, main) && i < |ps|
    requires !ps[i].pc.Unstarted? && !ps[i].pc.Exited? && !p.pc.Unstarted?
    requires p.kind == ps[i].kind && p.consuming == ps[i].consuming
    requires p.pc.Sending? ==> Sends(p.kind, p.pc.protocol, p.pc.req)
    ensures KindsOk(n, ps[i := p]) && ThreadsOk(n, ps[i := p], main)
  {
  }

  lemma LayoutWorker(s: State, outcome: Outcome)
    requires Layout(s) && WorkerEnabled(s)
    ensures Layout(ApplyWorker(s, outcome))
  {
    if s.worker.Handling? && |ApplyWorker(s, outcome).producers| > |s.producers| {
      KindsAppend(s.consumers, s.producers, s.main, Producer(Executor(s.worker.rest[0].res.id), true, Looping));
    }
  }

  lemma KindsAppend(n: nat, ps: seq<Producer>, main: MainPc, p: Producer)
    requires KindsOk(n, ps) && ThreadsOk(n, ps, main) && !main.Starting?
    requires p.kind.Executor? && p.pc.Looping?
    ensures KindsOk(n, ps + [p]) && ThreadsOk(n, ps + [p], main)
  {
  }

  predicate NeedsSession(w: WorkerPc) {
    w.Opened? || w.Greeting? || w.Acquiring? || w.Acquired? || w.Locking? || HoldsMutex(w)
  }

  ghost predicate MutexHeld(s: State) {
    && (!s.worker.Crashed? ==> (s.client.locked <==> HoldsMutex(s.worker)))
    && (s.worker.NotStarted? || s.worker.Storing? ==> !s.client.poll)
    && (s.worker.Testing? && s.client.poll ==> |s.server.sessions| > 0)
    && (NeedsSession(s.worker) ==> |s.server.sessions| > 0)
  }

  lemma MutexStep(s: State, a: Action)
    requires MutexHeld(s) && Enabled(s, a)
    requires Layout(s)
    ensures MutexHeld(Apply(s, a))
  {
  }

  // ---------- tokens ----------

  function NumReleasing(ps: seq<Producer>): nat {
    if |ps| == 0 then 0
    else NumReleasing(ps[..|ps| - 1]) + Bit(ps[|ps| - 1].pc.Releasing?)
  }

  function Bit(b: bool): nat { if b then 1 else 0 }

  lemma NumReleasingUpdate(ps: seq<Producer>, i: nat, p: Producer)
    requires i < |ps|
    ensures NumReleasing(ps[i := p]) + Bit(ps[i].pc.Releasing?) == NumReleasing(ps) + Bit(p.pc.Releasing?)
  {
    var last := |ps| - 1;
    if i == last {
      assert ps[i := p][..last] == ps[..last];
    } else {
      assert ps[i := p][..last] == ps[..last][i := p];
      NumReleasingUpdate(ps[..last], i, p);
    }
  }

  /** The worker took a token and has neither used it up nor given it back. */
  predicate Holds(w: WorkerPc) {
    w.Acquired? || w.Locking? || w.Serving? || w.Handling? || w.Popping? || w.GivingBack?
    || (w.Finished? && w.took)
  }

  ghost predicate TokensConserved(s: State) {
    !s.worker.Crashed? ==>
      s.client.sem + Bit(Holds(s.worker)) + NumReleasing(s.producers) == |s.client.queue| + Bit(StopReleased(s.main))
  }

  lemma TokensStep(s: State, a: Action)
    requires TokensConserved(s) && Enabled(s, a) && Layout(s)
    ensures TokensConserved(Apply(s, a))
  {
    match a
    case Main => TokensMain(s);
    case Produce(i, protocol, req) => TokensProducer(s, i, protocol, req);
    case Work(outcome) => TokensWorker(s, outcome);
    case _ =>
  }

  lemma TokensMain(s: State)
    requires TokensConserved(s) && !s.worker.Crashed? && MainEnabled(s)
    requires s.main.Starting? && s.main.i < s.consumers ==> s.producers[s.main.i].pc.Unstarted?
    requires s.main.Starting? ==> s.worker.NotStarted?
    ensures TokensConserved(ApplyMain(s))
  {
    match s.main {
      case Starting(i) =>
        if i < s.consumers {
          NumReleasingUpdate(s.producers, i, s.producers[i].(consuming := true, pc := Looping));
        }
      case Stopping(i) =>
        if i < s.consumers {
          NumReleasingUpdate(s.producers, i, s.producers[i].(consuming := false));
        }
      case _ =>
    }
  }

  lemma TokensProducer(s: State, i: nat, protocol: Protocol, req: RmsRequest)
    requires TokensConserved(s) && Enabled(s, Produce(i, protocol, req))
    ensures TokensConserved(ApplyProducer(s, i, protocol, req))
  {
    var s' := ApplyProducer(s, i, protocol, req);
    NumReleasingUpdate(s.producers, i, s'.producers[i]);
    assert s'.producers == s.producers[i := s'.producers[i]];
  }

  lemma TokensWorker(s: State, outcome: Outcome)
    requires TokensConserved(s) && WorkerEnabled(s)
    ensures TokensConserved(ApplyWorker(s, outcome))
  {
    if s.worker.Handling? {
      TokensHandling(s, s.worker.rest, outcome);
    } else {
      assert ApplyWorker(s, outcome).producers == s.producers;
    }
  }

  lemma TokensHandling(s: State, rest: seq<Issued>, outcome: Outcome)
    requires TokensConserved(s) && s.worker.Handling?
    ensures TokensConserved(ApplyHandling(s, rest, outcome))
  {
    var ps := ApplyHandling(s, rest, outcome).producers;
    if |ps| > |s.producers| { assert ps[..|ps| - 1] == s.producers; }
  }

  // ---------- the request queue and the ingest log ----------

  predicate Numbered(es: seq<Entry>) {
    forall i :: 0 <= i < |es| ==> es[i].no == i
  }

  ghost predicate QueueConserved(s: State) {
    && s.past.popped + s.client.queue == s.past.enqueued
    && Numbered(s.past.enqueued)
    && (s.worker.Handling? || s.worker.Popping? || s.worker.GivingBack? ==> |s.client.queue| > 0)
  }

  lemma QueueStep(s: State, a: Action)
    requires QueueConserved(s) && Enabled(s, a)
    ensures QueueConserved(Apply(s, a))
  {
    match a
    case Produce(i, protocol, req) => QueuePush(s, i, protocol, req);
    case Work(outcome) => QueueWorker(s, outcome);
    case _ =>
  }

  lemma QueuePush(s: State, i: nat, protocol: Protocol, req: RmsRequest)
    requires QueueConserved(s) && Enabled(s, Produce(i, protocol, req))
    ensures QueueConserved(ApplyProducer(s, i, protocol, req))
  {
  }

  lemma QueueWorker(s: State, outcome: Outcome)
    requires QueueConserved(s) && WorkerEnabled(s)
    ensures QueueConserved(ApplyWorker(s, outcome))
  {
    if s.worker.Popping? {
      assert s.client.queue == [s.client.queue[0]] + s.client.queue[1..];
    }
  }

  function TcpOnly(es: seq<Entry>): (r: seq<Entry>)
    ensures forall e <- r :: e in es && e.protocol.KTcp?
  {
    if |es| == 0 then []
    else TcpOnly(es[..|es| - 1]) + (if es[|es| - 1].protocol.KTcp? then [es[|es| - 1]] else [])
  }

  lemma TcpOnlyAppend(es: seq<Entry>, e: Entry)
    ensures TcpOnly(es + [e]) == TcpOnly(es) + (if e.protocol.KTcp? then [e] else [])
  {
    assert (es + [e])[..|es|] == es;
  }

  /** The server ingested the head of the queue and the reporter has not popped it. */
  predicate HeadIngested(log: seq<Entry>, popped: seq<Entry>, queue: seq<Entry>) {
    |queue| > 0 && queue[0].protocol.KTcp? && Collapse(log) == TcpOnly(popped) + [queue[0]]
  }

  predicate Ingested(log: seq<Entry>, popped: seq<Entry>, queue: seq<Entry>) {
    Collapse(log) == TcpOnly(popped) || HeadIngested(log, popped, queue)
  }

  ghost predicate LogInOrder(s: State) {
    && Ingested(s.server.log, s.past.popped, s.client.queue)
    && (s.worker.Handling? ==> HeadIngested(s.server.log, s.past.popped, s.client.queue))
    && (s.worker.Popping? && |s.client.queue| > 0 && s.client.queue[0].protocol.KTcp? ==> HeadIngested(s.server.log, s.past.popped, s.client.queue))
  }

  lemma IngestHead(log: seq<Entry>, popped: seq<Entry>, queue: seq<Entry>)
    requires Ingested(log, popped, queue) && Numbered(popped + queue)
    requires |queue| > 0 && queue[0].protocol.KTcp?
    ensures HeadIngested(log + [queue[0]], popped, queue)
  {
    var head := queue[0];
    CollapseAppend(log, head);
    if Collapse(log) == TcpOnly(popped) && |log| > 0 {
      var last := log[|log| - 1];
      assert last in TcpOnly(popped);
      var k :| 0 <= k < |popped| && popped[k] == last;
      assert (popped + queue)[k] == last && (popped + queue)[|popped|] == head;
    }
  }

  lemma PopIngested(log: seq<Entry>, popped: seq<Entry>, queue: seq<Entry>)
    requires Ingested(log, popped, queue) && |queue| > 0
    requires queue[0].protocol.KTcp? ==> HeadIngested(log, popped, queue)
    ensures Ingested(log, popped + [queue[0]], queue[1..])
  {
    TcpOnlyAppend(popped, queue[0]);
  }

  lemma PushIngested(log: seq<Entry>, popped: seq<Entry>, queue: seq<Entry>, e: Entry)
    ensures Ingested(log, popped, queue) ==> Ingested(log, popped, queue + [e])
    ensures HeadIngested(log, popped, queue) ==> HeadIngested(log, popped, queue + [e])
  {
  }

  lemma LogStep(s: State, a: Action)
    requires QueueConserved(s) && LogInOrder(s) && Enabled(s, a)
    ensures LogInOrder(Apply(s, a))
  {
    match a
    case Produce(i, protocol, req) => LogProducer(s, i, protocol, req);
    case Work(outcome) => LogWorker(s, outcome);
    case _ =>
  }

  lemma LogProducer(s: State, i: nat, protocol: Protocol, req: RmsRequest)
    requires QueueConserved(s) && LogInOrder(s) && Enabled(s, Produce(i, protocol, req))
    ensures LogInOrder(ApplyProducer(s, i, protocol, req))
  {
    if s.producers[i].pc.Sending? {
      PushIngested(s.server.log, s.past.popped, s.client.queue, Entry(|s.past.enqueued|, s.producers[i].pc.protocol, s.producers[i].pc.req));
    }
  }

  lemma LogWorker(s: State, outcome: Outcome)
    requires QueueConserved(s) && LogInOrder(s) && WorkerEnabled(s)
    ensures LogInOrder(ApplyWorker(s, outcome))
  {
    var s' := ApplyWorker(s, outcome);
    if s.worker.Serving? {
      LogServing(s, outcome);
    } else if s.worker.Popping? {
      PopIngested(s.server.log, s.past.popped, s.client.queue);
    } else {
      assert s'.server.log == s.server.log && s'.past.popped == s.past.popped && s'.client.queue == s.client.queue;
    }
  }

  lemma LogServing(s: State, outcome: Outcome)
    requires QueueConserved(s) && LogInOrder(s) && s.worker.Serving? && |s.client.queue| > 0 && |s.server.sessions| > 0
    ensures LogInOrder(ApplyServing(s, outcome))
  {
    if s.client.queue[0].protocol.KTcp? {
      IngestHead(s.server.log, s.past.popped, s.client.queue);
    }
  }
}
