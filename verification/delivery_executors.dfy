/** Executors: one per handled command, and at most one result per executor. */
module DeliveryExecutors {
  import opened Wire
  import opened DeliveryMachine
  import opened DeliveryInvariant
  import opened DeliveryCommands

  /** Row ids of the executor table are handed out in increasing order. */
  predicate CommandIds(issued: seq<Issued>, next: nat) {
    && (forall i :: 0 <= i < |issued| && issued[i].res.RunCommand? ==> issued[i].res.id < next)
    && (forall i, j :: 0 <= i < j < |issued| && issued[i].res.RunCommand? && issued[j].res.RunCommand? ==>
          issued[i].res.id < issued[j].res.id)
  }

  predicate Started(id: nat, handled: seq<Issued>) {
    exists k :: 0 <= k < |handled| && handled[k].res.RunCommand? && handled[k].res.id == id
  }

  predicate ExecutorsStarted(ps: seq<Producer>, handled: seq<Issued>) {
    forall j :: 0 <= j < |ps| && ps[j].kind.Executor? ==> Started(ps[j].kind.id, handled)
  }

  /** The keys of executors_ never collide: every emplace inserts. */
  predicate ExecutorsDistinct(ps: seq<Producer>) {
    forall i, j :: 0 <= i < j < |ps| && ps[i].kind.Executor? && ps[j].kind.Executor? ==>
      ps[i].kind.id != ps[j].kind.id
  }

  predicate HasResult(req: RmsRequest) {
    exists k :: 0 <= k < |req.data| && req.data[k].ExecutorResult?
  }

  predicate IsResult(req: RmsRequest, id: int) {
    |req.data| == 1 && req.data[0].ExecutorResult? && req.data[0].id == id
  }

  predicate Reported(p: Producer, req: RmsRequest) {
    p.kind.Executor? && IsResult(req, p.kind.id) && (p.pc.Releasing? || p.pc.Exited?)
  }

  /** A queued executor result comes, alone in its request, from an executor that has pushed. */
  predicate ResultsOwned(ps: seq<Producer>, enqueued: seq<Entry>) {
    forall i :: 0 <= i < |enqueued| && HasResult(enqueued[i].req) ==>
      enqueued[i].protocol.KTcp? && exists j :: 0 <= j < |ps| && Reported(ps[j], enqueued[i].req)
  }

  predicate DifferentResults(r1: RmsRequest, r2: RmsRequest) {
    && |r1.data| == 1 && r1.data[0].ExecutorResult?
    && |r2.data| == 1 && r2.data[0].ExecutorResult?
    && r1.data[0].id != r2.data[0].id
  }

  /** No two enqueued requests carry a result of the same executor. */
  predicate ResultsDistinct(enqueued: seq<Entry>) {
    forall i, j :: 0 <= i < j < |enqueued| && HasResult(enqueued[i].req) && HasResult(enqueued[j].req) ==>
      DifferentResults(enqueued[i].req, enqueued[j].req)
  }

  /** Every handled command has an executor. */
  predicate CommandsStarted(ps: seq<Producer>, handled: seq<Issued>) {
    forall k :: 0 <= k < |handled| && handled[k].res.RunCommand? ==> HasExecutor(ps, handled[k].res.id)
  }

  predicate HasExecutor(ps: seq<Producer>, id: nat) {
    exists j :: 0 <= j < |ps| && ps[j].kind == Executor(id)
  }

  /** Producers are never removed, and keep their kind. */
  predicate KindsKept(ps: seq<Producer>, ps': seq<Producer>) {
    |ps| <= |ps'| && forall j :: 0 <= j < |ps| ==> ps'[j].kind == ps[j].kind
  }

  lemma KindsStep(s: State, a: Action)
    requires Layout(s) && Enabled(s, a)
    ensures KindsKept(s.producers, Apply(s, a).producers)
  {
  }

  lemma CommandsStartedStep(s: State, a: Action)
    requires Layout(s) && CommandsStarted(s.producers, s.past.handled) && Enabled(s, a)
    ensures CommandsStarted(Apply(s, a).producers, Apply(s, a).past.handled)
  {
    KindsStep(s, a);
    var ps, s' := s.producers, Apply(s, a);
    forall id: nat | HasExecutor(ps, id) ensures HasExecutor(s'.producers, id) {
      var j :| 0 <= j < |ps| && ps[j].kind == Executor(id);
      assert s'.producers[j].kind == Executor(id);
    }
    if s'.past.handled != s.past.handled && s.worker.rest[0].res.RunCommand? {
      assert s'.producers[|ps|].kind == Executor(s.worker.rest[0].res.id);
    }
  }

  ghost predicate ExecutorsOk(s: State) {
    && CommandIds(s.server.issued, s.server.nextExecutor)
    && ExecutorsStarted(s.producers, s.past.handled)
    && ExecutorsDistinct(s.producers)
    && ResultsOwned(s.producers, s.past.enqueued)
    && ResultsDistinct(s.past.enqueued)
  }

  lemma ExecutorsStep(s: State, a: Action)
    requires ExecutorsOk(s) && Enabled(s, a)
    requires Layout(s) && CommandsFlow(s)
    ensures ExecutorsOk(Apply(s, a))
  {
    match a
    case Issue(sid, ask) =>
    case Produce(i, protocol, req) => ExecutorsProducer(s, i, protocol, req);
    case Work(outcome) => ExecutorsWorker(s, outcome);
    case Main => ExecutorsMain(s);
    case _ =>
  }

  lemma ExecutorsMain(s: State)
    requires ExecutorsOk(s) && Layout(s) && MainEnabled(s)
    ensures ExecutorsOk(ApplyMain(s))
  {
    var s' := ApplyMain(s);
    if s'.producers != s.producers {
      assert s'.producers == s.producers[s.main.i := s'.producers[s.main.i]];
      KeepOwners(s.producers, s.past.enqueued, s.main.i, s'.producers[s.main.i]);
    }
  }

  /** Changing a producer that is no executor, or one that has not pushed yet, keeps all owners. */
  lemma KeepOwners(ps: seq<Producer>, enqueued: seq<Entry>, i: nat, p: Producer)
    requires i < |ps| && ResultsOwned(ps, enqueued)
    requires p.kind == ps[i].kind
    requires ps[i].kind.Executor? && (ps[i].pc.Releasing? || ps[i].pc.Exited?) ==> p.pc.Releasing? || p.pc.Exited?
    ensures ResultsOwned(ps[i := p], enqueued)
  {
    var ps' := ps[i := p];
    forall k | 0 <= k < |enqueued| && HasResult(enqueued[k].req)
      ensures enqueued[k].protocol.KTcp? && exists j :: 0 <= j < |ps'| && Reported(ps'[j], enqueued[k].req)
    {
      var j :| 0 <= j < |ps| && Reported(ps[j], enqueued[k].req);
      assert Reported(ps'[j], enqueued[k].req);
    }
  }

  lemma ExecutorsProducer(s: State, i: nat, protocol: Protocol, req: RmsRequest)
    requires ExecutorsOk(s) && Layout(s) && Enabled(s, Produce(i, protocol, req))
    ensures ExecutorsOk(ApplyProducer(s, i, protocol, req))
  {
    var s' := ApplyProducer(s, i, protocol, req);
    var p := s'.producers[i];
    assert s'.producers == s.producers[i := p];
    KeepOwners(s.producers, s.past.enqueued, i, p);
    if s.producers[i].pc.Sending? {
      PushOwned(s.producers, s.past.enqueued, i, p, s'.past.enqueued[|s.past.enqueued|]);
    }
  }

  lemma PushOwned(ps: seq<Producer>, enqueued: seq<Entry>, i: nat, p: Producer, e: Entry)
    requires i < |ps| && ExecutorsDistinct(ps) && ResultsOwned(ps, enqueued) && ResultsDistinct(enqueued)
    requires ResultsOwned(ps[i := p], enqueued)
    requires ps[i].pc.Sending? && p == ps[i].(pc := Releasing)
    requires Sends(p.kind, e.protocol, e.req)
    ensures ResultsOwned(ps[i := p], enqueued + [e])
    ensures ResultsDistinct(enqueued + [e])
  {
    if HasResult(e.req) {
      assert p.kind.Executor? && IsResult(e.req, p.kind.id);
      assert Reported(ps[i := p][i], e.req);
      forall k | 0 <= k < |enqueued| && HasResult(enqueued[k].req)
        ensures DifferentResults(enqueued[k].req, e.req)
      {
        var j :| 0 <= j < |ps| && Reported(ps[j], enqueued[k].req);
        assert j != i;
      }
    }
  }

  lemma ExecutorsWorker(s: State, outcome: Outcome)
    requires ExecutorsOk(s) && WorkerEnabled(s) && CommandsFlow(s)
    ensures ExecutorsOk(ApplyWorker(s, outcome))
  {
    if s.worker.Handling? {
      ExecutorsHandling(s, outcome);
    } else {
      var s' := ApplyWorker(s, outcome);
      assert s'.producers == s.producers && s'.past.handled == s.past.handled && s'.past.enqueued == s.past.enqueued
          && s'.server.issued == s.server.issued && s'.server.nextExecutor == s.server.nextExecutor;
    }
  }

  lemma ExecutorsHandling(s: State, outcome: Outcome)
    requires ExecutorsOk(s) && s.worker.Handling? && CommandsFlow(s)
    ensures ExecutorsOk(ApplyHandling(s, s.worker.rest, outcome))
  {
    var rest := s.worker.rest;
    if rest != [] {
      var head, handled := rest[0], s.past.handled;
      forall id: nat | Started(id, handled) ensures Started(id, handled + [head]) {
        var k :| 0 <= k < |handled| && handled[k].res.RunCommand? && handled[k].res.id == id;
        assert (handled + [head])[k] == handled[k];
      }
      if head.res.RunCommand? {
        assert (handled + [head])[|handled|] == head;
        FreshExecutor(s, head);
        var p := Producer(Executor(head.res.id), true, Looping);
        var ps' := s.producers + [p];
        forall k | 0 <= k < |s.past.enqueued| && HasResult(s.past.enqueued[k].req)
          ensures exists j :: 0 <= j < |ps'| && Reported(ps'[j], s.past.enqueued[k].req)
        {
          var j :| 0 <= j < |s.producers| && Reported(s.producers[j], s.past.enqueued[k].req);
          assert Reported(ps'[j], s.past.enqueued[k].req);
        }
      }
    }
  }

  /** A command about to be handled has an id that no executor has yet. */
  lemma FreshExecutor(s: State, head: Issued)
    requires ExecutorsOk(s) && s.worker.Handling? && CommandsFlow(s)
    requires s.worker.rest != [] && head == s.worker.rest[0] && head.res.RunCommand?
    ensures forall j :: 0 <= j < |s.producers| && s.producers[j].kind.Executor? ==> s.producers[j].kind.id != head.res.id
  {
    var handled, rest := s.past.handled, s.worker.rest;
    forall j | 0 <= j < |s.producers| && s.producers[j].kind.Executor?
      ensures s.producers[j].kind.id != head.res.id
    {
      var k :| 0 <= k < |handled| && handled[k].res.RunCommand? && handled[k].res.id == s.producers[j].kind.id;
      assert (handled + rest)[k].no < (handled + rest)[|handled|].no;
      DrainedIsIssued(s, handled[k]);
      DrainedIsIssued(s, head);
    }
  }

  lemma DrainedIsIssued(s: State, e: Issued)
    requires CommandsFlow(s) && e in multiset(s.past.handled) + multiset(Rest(s.worker))
    ensures e.no < |s.server.issued| && s.server.issued[e.no] == e
  {
    assert e in multiset(s.server.drained);
    var k :| 0 <= k < |s.server.drained| && s.server.drained[k] == e;
    assert (s.server.drained + Current(s.server.sessions))[k] == e;
  }
}
