/** The delivery guarantees, for every run of the protocol. */
module Delivery {
  import opened Sequences
  import opened DeliveryMachine
  import opened DeliveryInvariant
  import opened DeliveryCommands
  import opened DeliveryExecutors

  // ---------- invariants of every run ----------

  ghost predicate Safe(s: State) {
    && Layout(s) && MutexHeld(s) && TokensConserved(s)
    && QueueConserved(s) && LogInOrder(s)
    && SessionsConserved(s) && CommandsFlow(s) && ExecutorsOk(s)
  }

  lemma SafeInit(timeouts: seq<nat>)
    ensures Safe(Init(timeouts))
  {
    LayoutInit(timeouts);
    TokensInit(timeouts);
    CommandsInit(timeouts);
  }

  lemma LayoutInit(timeouts: seq<nat>)
    ensures Layout(Init(timeouts)) && MutexHeld(Init(timeouts)) && ExecutorsOk(Init(timeouts))
  {
  }

  lemma TokensInit(timeouts: seq<nat>)
    ensures TokensConserved(Init(timeouts)) && QueueConserved(Init(timeouts)) && LogInOrder(Init(timeouts))
  {
    NoneReleasing(Init(timeouts).producers);
  }

  lemma CommandsInit(timeouts: seq<nat>)
    ensures SessionsConserved(Init(timeouts)) && CommandsFlow(Init(timeouts))
  {
  }

  lemma NoneReleasing(ps: seq<Producer>)
    requires forall i :: 0 <= i < |ps| ==> ps[i].pc.Unstarted?
    ensures NumReleasing(ps) == 0
  {
  }

  lemma SafeStep(s: State, a: Action)
    requires Safe(s) && Enabled(s, a)
    ensures Safe(Apply(s, a))
  {
    LayoutStep(s, a);
    MutexStep(s, a);
    TokensStep(s, a);
    QueueStep(s, a);
    LogStep(s, a);
    SessionsStep(s, a);
    CommandsStep(s, a);
    ExecutorsStep(s, a);
  }

  lemma {:induction false} SafeRun(s: State, actions: seq<Action>)
    requires Safe(s) && IsRun(s, actions)
    ensures Safe(Exec(s, actions))
    decreases |actions|
  {
    if |actions| > 0 {
      SafeStep(s, actions[0]);
      SafeRun(Apply(s, actions[0]), actions[1..]);
    }
  }

  // ---------- invariants of runs in which stop() follows the worker's store ----------

  /** The worker has stored true into poll_requests_. */
  predicate HasStored(w: WorkerPc) {
    !w.NotStarted? && !w.Storing?
  }

  ghost predicate PollOrder(s: State) {
    && (PollStored(s.main) ==> !s.client.poll && HasStored(s.worker))
    && (!PollStored(s.main) && HasStored(s.worker) ==> s.client.poll)
    && (s.worker.Locking? || s.worker.Serving? ==> |s.client.queue| > 0)
    && (StopReleased(s.main) && !s.worker.Crashed? ==>
          s.client.sem >= 1 || s.worker.Acquired? || s.worker.Finished?)
  }

  lemma PollStep(s: State, a: Action)
    requires Safe(s) && PollOrder(s) && Enabled(s, a) && Ordered(s, a)
    ensures PollOrder(Apply(s, a))
  {
    match a
    case Work(outcome) => PollWorker(s, outcome);
    case Main => PollMain(s);
    case _ =>
  }

  lemma PollMain(s: State)
    requires PollOrder(s) && MainEnabled(s) && Ordered(s, Main)
    requires s.main.Starting? <==> s.worker.NotStarted?
    ensures PollOrder(ApplyMain(s))
  {
  }

  lemma PollWorker(s: State, outcome: Outcome)
    requires PollOrder(s) && TokensConserved(s) && WorkerEnabled(s)
    ensures PollOrder(ApplyWorker(s, outcome))
  {
    if s.worker.Acquired? {
      assert s.client.poll ==> |s.client.queue| > 0;
    } else if s.worker.Handling? {
      assert ApplyWorker(s, outcome).client == s.client;
    }
  }

  lemma {:induction false} OrderedRun(s: State, actions: seq<Action>)
    requires Safe(s) && PollOrder(s) && IsRun(s, actions) && IsOrderedRun(s, actions)
    ensures Safe(Exec(s, actions)) && PollOrder(Exec(s, actions))
    decreases |actions|
  {
    if |actions| > 0 {
      SafeStep(s, actions[0]);
      PollStep(s, actions[0]);
      OrderedRun(Apply(s, actions[0]), actions[1..]);
    }
  }

  // ---------- telemetry: at least once, in order ----------

  lemma {:induction false} TcpOnlyConcat(a: seq<Entry>, b: seq<Entry>)
    ensures TcpOnly(a + b) == TcpOnly(a) + TcpOnly(b)
    decreases |b|
  {
    if |b| == 0 {
      assert a + b == a;
    } else {
      var last := |b| - 1;
      assert (a + b)[..|a + b| - 1] == a + b[..last];
      TcpOnlyConcat(a, b[..last]);
    }
  }

  lemma {:induction false} TcpOnlyHead(es: seq<Entry>)
    requires |es| > 0 && es[0].protocol.KTcp?
    ensures |TcpOnly(es)| > 0 && TcpOnly(es)[0] == es[0]
  {
    assert es == [es[0]] + es[1..];
    TcpOnlyConcat([es[0]], es[1..]);
    assert TcpOnly([es[0]]) == [es[0]] by { assert [es[0]][..0] == []; }
  }

  lemma {:induction false} TcpOnlyNumbered(es: seq<Entry>, from: nat)
    requires forall i :: 0 <= i < |es| ==> es[i].no == from + i
    ensures forall i, j :: 0 <= i < j < |TcpOnly(es)| ==> TcpOnly(es)[i].no < TcpOnly(es)[j].no
    ensures forall i :: 0 <= i < |TcpOnly(es)| ==> TcpOnly(es)[i].no < from + |es|
  {
    if |es| > 0 {
      TcpOnlyNumbered(es[..|es| - 1], from);
    }
  }

  /** Nothing that was enqueued is lost or reordered, and the server's log, read
      without adjacent repeats, is what was popped plus at most the head. */
  lemma TelemetryAtLeastOnceInOrder(timeouts: seq<nat>, actions: seq<Action>)
    requires IsRun(Init(timeouts), actions)
    ensures var s := Exec(Init(timeouts), actions);
            && s.past.popped + s.client.queue == s.past.enqueued
            && TcpOnly(s.past.popped) <= Collapse(s.server.log) <= TcpOnly(s.past.enqueued)
            && |Collapse(s.server.log)| <= |TcpOnly(s.past.popped)| + 1
            && (|Collapse(s.server.log)| > |TcpOnly(s.past.popped)| ==>
                  |s.client.queue| > 0 && s.server.log[|s.server.log| - 1] == s.client.queue[0])
            && Distinct(Collapse(s.server.log))
  {
    SafeInit(timeouts);
    SafeRun(Init(timeouts), actions);
    var s := Exec(Init(timeouts), actions);
    LogIsPrefix(s);
  }

  lemma LogIsPrefix(s: State)
    requires QueueConserved(s) && LogInOrder(s)
    ensures TcpOnly(s.past.popped) <= Collapse(s.server.log) <= TcpOnly(s.past.enqueued)
    ensures |Collapse(s.server.log)| > |TcpOnly(s.past.popped)| ==>
              |s.client.queue| > 0 && s.server.log[|s.server.log| - 1] == s.client.queue[0]
    ensures |Collapse(s.server.log)| <= |TcpOnly(s.past.popped)| + 1
    ensures Distinct(Collapse(s.server.log))
  {
    var popped, queue, log := s.past.popped, s.client.queue, s.server.log;
    TcpOnlyConcat(popped, queue);
    if HeadIngested(log, popped, queue) {
      TcpOnlyHead(queue);
      assert TcpOnly(queue) == [queue[0]] + TcpOnly(queue)[1..];
      assert TcpOnly(s.past.enqueued) == Collapse(log) + TcpOnly(queue)[1..];
    }
    PrefixDistinct(Collapse(log), s.past.enqueued);
  }

  lemma PrefixDistinct(es: seq<Entry>, enqueued: seq<Entry>)
    requires Numbered(enqueued) && es <= TcpOnly(enqueued)
    ensures Distinct(es)
  {
    TcpOnlyNumbered(enqueued, 0);
    forall i, j | 0 <= i < j < |es| ensures es[i] != es[j] {
      assert es[i] == TcpOnly(enqueued)[i] && es[j] == TcpOnly(enqueued)[j];
    }
  }

  /** A request leaves the queue only after the server ingested it. */
  lemma PoppedWasIngested(timeouts: seq<nat>, actions: seq<Action>, e: Entry)
    requires IsRun(Init(timeouts), actions)
    requires e in Exec(Init(timeouts), actions).past.popped && e.protocol.KTcp?
    ensures e in Exec(Init(timeouts), actions).server.log
  {
    SafeInit(timeouts);
    SafeRun(Init(timeouts), actions);
    PoppedIsLogged(Exec(Init(timeouts), actions), e);
  }

  lemma PoppedIsLogged(s: State, e: Entry)
    requires LogInOrder(s) && e in s.past.popped && e.protocol.KTcp?
    ensures e in s.server.log
  {
    TcpOnlyKeeps(s.past.popped, e);
    assert e in Collapse(s.server.log);
    CollapseSubset(s.server.log, e);
  }

  lemma {:induction false} TcpOnlyKeeps(es: seq<Entry>, e: Entry)
    requires e in es && e.protocol.KTcp?
    ensures e in TcpOnly(es)
  {
    if es[|es| - 1] != e {
      TcpOnlyKeeps(es[..|es| - 1], e);
    }
  }

  // ---------- commands: at most once, in order ----------

  /** Strictly increasing positions in issued make a duplicate-free subsequence of it. */
  lemma {:induction false} IncreasingIsSubsequence(s: seq<Issued>, issued: seq<Issued>)
    requires Increasing(s) && AllIssued(s, issued)
    ensures Subsequence(s, issued) && Distinct(s)
    decreases |issued|
  {
    if |s| > 0 {
      var last := |issued| - 1;
      assert s[|s| - 1].no <= last;
      if s[|s| - 1].no == last {
        IncreasingIsSubsequence(s[..|s| - 1], issued[..last]);
      } else {
        IncreasingIsSubsequence(s, issued[..last]);
      }
    }
  }

  /** What the reporter handles is a duplicate-free subsequence of what was issued,
      over all sessions; the rest of what was drained is in the worker's hands or
      was lost with a reply. */
  lemma CommandsAtMostOnceInOrder(timeouts: seq<nat>, actions: seq<Action>)
    requires IsRun(Init(timeouts), actions)
    ensures var s := Exec(Init(timeouts), actions);
            && Subsequence(s.past.handled, s.server.issued) && Distinct(s.past.handled)
            && multiset(s.server.drained) == multiset(s.past.handled) + multiset(Rest(s.worker)) + multiset(s.past.lost)
            && (s.past.lost == [] ==> s.server.drained == s.past.handled + Rest(s.worker))
  {
    SafeInit(timeouts);
    SafeRun(Init(timeouts), actions);
    var s := Exec(Init(timeouts), actions);
    var handled, rest := s.past.handled, Rest(s.worker);
    forall k | 0 <= k < |handled|
      ensures handled[k].no < |s.server.issued| && s.server.issued[handled[k].no] == handled[k]
    {
      DrainedIsIssued(s, handled[k]);
      assert handled[k] == (handled + rest)[k];
    }
    forall i, j | 0 <= i < j < |handled| ensures handled[i].no < handled[j].no {
      assert (handled + rest)[i].no < (handled + rest)[j].no;
    }
    IncreasingIsSubsequence(handled, s.server.issued);
  }

  /** Per session: what was drained, then what still waits, is what was added, and
      that is the issued history restricted to the session. */
  lemma SessionIsFifo(timeouts: seq<nat>, actions: seq<Action>, k: nat)
    requires IsRun(Init(timeouts), actions)
    requires k < |Exec(Init(timeouts), actions).server.sessions|
    ensures var s := Exec(Init(timeouts), actions);
            var session := s.server.sessions[k];
            session.drained + session.queue == session.added == Of(s.server.issued, k)
  {
    SafeInit(timeouts);
    SafeRun(Init(timeouts), actions);
    var s := Exec(Init(timeouts), actions);
    assert SessionFifo(s.server.sessions[k], s.server.issued, k);
  }

  lemma {:induction false} CommandsStartedRun(s: State, actions: seq<Action>)
    requires Safe(s) && CommandsStarted(s.producers, s.past.handled) && IsRun(s, actions)
    ensures Safe(Exec(s, actions)) && CommandsStarted(Exec(s, actions).producers, Exec(s, actions).past.handled)
    decreases |actions|
  {
    if |actions| > 0 {
      SafeStep(s, actions[0]);
      CommandsStartedStep(s, actions[0]);
      CommandsStartedRun(Apply(s, actions[0]), actions[1..]);
    }
  }

  /** Handled commands and executors correspond: every command has its executor, every
      executor its command, and no two executors share an id. */
  lemma OneExecutorPerCommand(timeouts: seq<nat>, actions: seq<Action>)
    requires IsRun(Init(timeouts), actions)
    ensures ExecutorsDistinct(Exec(Init(timeouts), actions).producers)
    ensures ExecutorsStarted(Exec(Init(timeouts), actions).producers, Exec(Init(timeouts), actions).past.handled)
    ensures CommandsStarted(Exec(Init(timeouts), actions).producers, Exec(Init(timeouts), actions).past.handled)
  {
    SafeInit(timeouts);
    CommandsStartedRun(Init(timeouts), actions);
  }

  /** The server's log holds, up to adjacent repeats, at most one result per executor. */
  lemma OneResultPerExecutor(timeouts: seq<nat>, actions: seq<Action>, i: nat, j: nat)
    requires IsRun(Init(timeouts), actions)
    requires var log := Collapse(Exec(Init(timeouts), actions).server.log);
             i < j < |log| && HasResult(log[i].req) && HasResult(log[j].req)
    ensures var log := Collapse(Exec(Init(timeouts), actions).server.log);
            DifferentResults(log[i].req, log[j].req)
  {
    SafeInit(timeouts);
    SafeRun(Init(timeouts), actions);
    var s := Exec(Init(timeouts), actions);
    LogIsPrefix(s);
    LogResults(s, i, j);
  }

  lemma LogResults(s: State, i: nat, j: nat)
    requires QueueConserved(s) && LogInOrder(s) && ExecutorsOk(s)
    requires i < j < |Collapse(s.server.log)|
    requires HasResult(Collapse(s.server.log)[i].req) && HasResult(Collapse(s.server.log)[j].req)
    ensures DifferentResults(Collapse(s.server.log)[i].req, Collapse(s.server.log)[j].req)
  {
    LogIsPrefix(s);
    var tcp := TcpOnly(s.past.enqueued);
    TcpOnlyNumbered(s.past.enqueued, 0);
    assert tcp[i] in s.past.enqueued && tcp[j] in s.past.enqueued;
    var k :| 0 <= k < |s.past.enqueued| && s.past.enqueued[k] == tcp[i];
    var l :| 0 <= l < |s.past.enqueued| && s.past.enqueued[l] == tcp[j];
    assert k == tcp[i].no < tcp[j].no == l;
  }

  // ---------- tokens ----------

  /** Read as a counter, the semaphore never loses or invents a token. */
  lemma TokenConservation(timeouts: seq<nat>, actions: seq<Action>)
    requires IsRun(Init(timeouts), actions)
    requires !Exec(Init(timeouts), actions).worker.Crashed?
    ensures var s := Exec(Init(timeouts), actions);
            s.client.sem + Bit(Holds(s.worker)) + NumReleasing(s.producers)
              == |s.client.queue| + Bit(StopReleased(s.main))
  {
    SafeInit(timeouts);
    SafeRun(Init(timeouts), actions);
  }

  /** No lost wake-up: a worker blocked in acquire, with no producer between its
      push and its release, has nothing to send. */
  lemma NoLostWakeUp(timeouts: seq<nat>, actions: seq<Action>)
    requires IsRun(Init(timeouts), actions)
    requires var s := Exec(Init(timeouts), actions);
             s.worker.Acquiring? && !WorkerEnabled(s) && forall i :: 0 <= i < |s.producers| ==> !s.producers[i].pc.Releasing?
    ensures Exec(Init(timeouts), actions).client.queue == []
  {
    TokenConservation(timeouts, actions);
    NoReleasing(Exec(Init(timeouts), actions).producers);
  }

  lemma NoReleasing(ps: seq<Producer>)
    requires forall i :: 0 <= i < |ps| ==> !ps[i].pc.Releasing?
    ensures NumReleasing(ps) == 0
  {
  }

  /** front() always has a head, if stop() follows the worker's store of poll_requests_. */
  lemma FrontHasHead(timeouts: seq<nat>, actions: seq<Action>)
    requires IsRun(Init(timeouts), actions) && IsOrderedRun(Init(timeouts), actions)
    ensures var s := Exec(Init(timeouts), actions);
            s.worker.Serving? ==> |s.client.queue| > 0 && WorkerEnabled(s)
  {
    SafeInit(timeouts);
    OrderedRun(Init(timeouts), actions);
  }
}
