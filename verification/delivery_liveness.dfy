/** At least once, as a liveness property: while stop() has not been called, every
    queued request is ingested and popped in the end, however often connections and
    reports fail, as long as neither fails for ever. Only weak fairness is asked of the
    scheduler. */
module DeliveryLiveness {
  import opened Wire
  import opened DeliveryMachine
  import opened DeliveryInvariant
  import opened Delivery
  import opened Traces

  /** A thread that can step from some point on does step. */
  ghost predicate WeaklyFairTo(tr: Trace, t: Thread) {
    forall n: nat :: (forall m: nat :: m >= n ==> ThreadEnabled(tr.state(m), t)) ==> StepsLater(tr, t, n)
  }

  ghost predicate WeaklyFair(tr: Trace) {
    forall t: Thread :: WeaklyFairTo(tr, t)
  }

  /** Step m is a call of report. */
  predicate Attempt(tr: Trace, m: nat) {
    && tr.action(m).Work? && tr.state(m).worker.Serving?
    && |tr.state(m).client.queue| > 0 && tr.state(m).client.queue[0].protocol.KTcp?
  }

  ghost predicate AttemptLater(tr: Trace, n: nat) {
    exists m: nat :: m >= n && Attempt(tr, m)
  }

  ghost predicate SuccessLater(tr: Trace, n: nat) {
    exists m: nat :: m >= n && Attempt(tr, m) && tr.action(m).outcome.Ok?
  }

  /** If report is called again and again, it succeeds again and again. */
  ghost predicate ReportsSucceed(tr: Trace) {
    (forall n: nat :: AttemptLater(tr, n)) ==> (forall n: nat :: SuccessLater(tr, n))
  }

  /** Step m is a call of transport_->open(). */
  predicate Opens(tr: Trace, m: nat) {
    tr.action(m).Work? && tr.state(m).worker.Connecting? && tr.state(m).client.poll
  }

  ghost predicate OpensLater(tr: Trace, n: nat) {
    exists m: nat :: m >= n && Opens(tr, m)
  }

  ghost predicate OpenedLater(tr: Trace, n: nat) {
    exists m: nat :: m >= n && Opens(tr, m) && tr.action(m).outcome.Ok?
  }

  /** If a connection is tried again and again, it is accepted again and again. */
  ghost predicate ConnectionsSucceed(tr: Trace) {
    (forall n: nat :: OpensLater(tr, n)) ==> (forall n: nat :: OpenedLater(tr, n))
  }

  /** From n0 on the worker's thread exists and poll_requests_ is not set to false. */
  ghost predicate Delivers(tr: Trace, timeouts: seq<nat>, n0: nat) {
    && IsTrace(tr, timeouts) && WeaklyFair(tr) && NothingThrows(tr, n0) && ConnectionsSucceed(tr) && ReportsSucceed(tr)
    && !tr.state(n0).worker.NotStarted? && !tr.state(n0).worker.Crashed?
    && forall m: nat :: m >= n0 ==> !PollStored(tr.state(m).main)
  }

  // ---------- the worker lives ----------

  lemma {:induction false} FinishedAfterStore(tr: Trace, timeouts: seq<nat>, n: nat)
    requires IsTrace(tr, timeouts)
    ensures tr.state(n).worker.Finished? ==> PollStored(tr.state(n).main)
  {
    if n > 0 {
      FinishedAfterStore(tr, timeouts, n - 1);
      HoldsAt(tr, timeouts, n - 1);
      assert StepAt(tr, n - 1);
      FinishStep(tr.state(n - 1), tr.action(n - 1));
    }
  }

  lemma FinishStep(s: State, a: Action)
    requires Enabled(s, a) && PollOrder(s) && Layout(s) && (s.worker.Finished? ==> PollStored(s.main))
    ensures Apply(s, a).worker.Finished? ==> PollStored(Apply(s, a).main)
  {
  }

  predicate Alive(w: WorkerPc) {
    !w.NotStarted? && !w.Crashed? && !w.Finished?
  }

  lemma {:induction false} StaysAlive(tr: Trace, timeouts: seq<nat>, n0: nat, n: nat)
    requires Delivers(tr, timeouts, n0) && n >= n0
    ensures Alive(tr.state(n).worker)
  {
    FinishedAfterStore(tr, timeouts, n);
    if n > n0 {
      StaysAlive(tr, timeouts, n0, n - 1);
      HoldsAt(tr, timeouts, n - 1);
      assert StepAt(tr, n - 1);
      AliveStep(tr.state(n - 1), tr.action(n - 1));
    }
  }

  lemma AliveStep(s: State, a: Action)
    requires Enabled(s, a) && Layout(s) && Alive(s.worker)
    requires a.Work? && (s.worker.Greeting? || s.worker.Handling?) ==> a.outcome.Ok?
    ensures !Apply(s, a).worker.NotStarted? && !Apply(s, a).worker.Crashed?
    ensures !a.Work? ==> Apply(s, a).worker == s.worker
  {
  }

  // ---------- between two steps of the worker ----------

  /** While the worker rests, its pc stays, the queue and the tokens only grow. */
  lemma {:induction false} WorkerRests(tr: Trace, timeouts: seq<nat>, n0: nat, n: nat, m: nat)
    requires Delivers(tr, timeouts, n0) && n0 <= n <= m
    requires forall j: nat :: n <= j < m ==> !By(tr.action(j), WorkerThread)
    ensures tr.state(m).worker == tr.state(n).worker
    ensures tr.state(n).client.queue <= tr.state(m).client.queue && tr.state(m).past.popped == tr.state(n).past.popped
    ensures tr.state(n).client.sem <= tr.state(m).client.sem
  {
    if n < m {
      WorkerRests(tr, timeouts, n0, n, m - 1);
      StaysAlive(tr, timeouts, n0, m - 1);
      HoldsAt(tr, timeouts, m - 1);
      assert StepAt(tr, m - 1);
      RestStep(tr.state(m - 1), tr.action(m - 1));
    }
  }

  lemma RestStep(s: State, a: Action)
    requires Enabled(s, a) && Layout(s) && Alive(s.worker) && !a.Work?
    ensures Apply(s, a).worker == s.worker && Apply(s, a).past.popped == s.past.popped
    ensures s.client.queue <= Apply(s, a).client.queue && s.client.sem <= Apply(s, a).client.sem
  {
  }

  lemma CanStep(s: State)
    requires Safe(s) && PollOrder(s) && Alive(s.worker) && (s.worker.Acquiring? ==> s.client.sem > 0)
    ensures ThreadEnabled(s, WorkerThread)
  {
    assert By(Work(Ok), WorkerThread) && Enabled(s, Work(Ok));
  }

  lemma {:induction false} SomeReleasing(ps: seq<Producer>) returns (i: nat)
    requires NumReleasing(ps) > 0
    ensures i < |ps| && ps[i].pc.Releasing?
  {
    i := |ps| - 1;
    if !ps[i].pc.Releasing? {
      i := SomeReleasing(ps[..i]);
    }
  }

  /** If not stepping would leave t enabled for good, t steps. */
  lemma WeaklyFairly(tr: Trace, t: Thread, n: nat, from: nat)
    requires WeaklyFair(tr) && n <= from
    requires !StepsLater(tr, t, n) ==> forall m: nat :: m >= from ==> ThreadEnabled(tr.state(m), t)
    ensures StepsLater(tr, t, n)
  {
    assert WeaklyFairTo(tr, t);
    if forall m: nat :: m >= from ==> ThreadEnabled(tr.state(m), t) {
      assert StepsLater(tr, t, from);
    }
  }

  /** A producer between push and release stays there until its own step. */
  lemma {:induction false} ReleasingWaits(tr: Trace, timeouts: seq<nat>, n: nat, m: nat, i: nat)
    requires IsTrace(tr, timeouts) && n <= m
    requires i < |tr.state(n).producers| && tr.state(n).producers[i].pc.Releasing?
    requires forall j: nat :: n <= j < m ==> !By(tr.action(j), ProducerThread(i))
    ensures i < |tr.state(m).producers| && tr.state(m).producers[i].pc.Releasing?
  {
    if n < m {
      ReleasingWaits(tr, timeouts, n, m - 1, i);
      HoldsAt(tr, timeouts, m - 1);
      assert StepAt(tr, m - 1);
      ReleasingStep(tr.state(m - 1), tr.action(m - 1), i);
    }
  }

  lemma ReleasingStep(s: State, a: Action, i: nat)
    requires Enabled(s, a) && Layout(s) && i < |s.producers| && s.producers[i].pc.Releasing?
    ensures i < |Apply(s, a).producers|
    ensures if By(a, ProducerThread(i)) then Apply(s, a).client.sem == s.client.sem + 1
            else Apply(s, a).producers[i].pc.Releasing?
  {
  }

  /** A producer between push and release does release. */
  lemma ReleaseComes(tr: Trace, timeouts: seq<nat>, n0: nat, n: nat, i: nat) returns (k: nat)
    requires Delivers(tr, timeouts, n0) && n >= n0
    requires i < |tr.state(n).producers| && tr.state(n).producers[i].pc.Releasing?
    ensures k >= n && tr.state(k + 1).client.sem > 0
  {
    var t := ProducerThread(i);
    if !StepsLater(tr, t, n) {
      forall m: nat | m >= n ensures ThreadEnabled(tr.state(m), t) {
        ReleasingWaits(tr, timeouts, n, m, i);
        StaysAlive(tr, timeouts, n0, m);
        var a := Produce(i, KTcp, RmsRequest(0, []));
        assert By(a, t) && Enabled(tr.state(m), a);
      }
    }
    WeaklyFairly(tr, t, n, n);
    k := NextStep(tr, t, n);
    ReleasingWaits(tr, timeouts, n, k, i);
    HoldsAt(tr, timeouts, k);
    assert StepAt(tr, k);
    ReleasingStep(tr.state(k), tr.action(k), i);
  }

  /** With a request in the queue, a worker that waits for a token gets one. */
  lemma TokenComes(tr: Trace, timeouts: seq<nat>, n0: nat, n: nat) returns (k: nat)
    requires Delivers(tr, timeouts, n0) && n >= n0 && tr.state(n).client.queue != []
    ensures k >= n && (tr.state(k).worker.Acquiring? && !StepsLater(tr, WorkerThread, n) ==> tr.state(k).client.sem > 0)
  {
    k := n;
    HoldsAt(tr, timeouts, n);
    if tr.state(n).worker.Acquiring? && tr.state(n).client.sem == 0 {
      var i := SomeReleasing(tr.state(n).producers);
      k := ReleaseComes(tr, timeouts, n0, n, i);
      k := k + 1;
    }
  }

  /** With a request in the queue the worker does not rest for ever. */
  lemma WorkerSteps(tr: Trace, timeouts: seq<nat>, n0: nat, n: nat) returns (k: nat)
    requires Delivers(tr, timeouts, n0) && n >= n0 && tr.state(n).client.queue != []
    ensures k >= n && StepAt(tr, k) && tr.action(k).Work? && tr.state(k).worker == tr.state(n).worker
    ensures tr.state(n).client.queue <= tr.state(k).client.queue && tr.state(k).past.popped == tr.state(n).past.popped
  {
    var from := TokenComes(tr, timeouts, n0, n);
    if !StepsLater(tr, WorkerThread, n) {
      forall m: nat | m >= from ensures ThreadEnabled(tr.state(m), WorkerThread) {
        WorkerRests(tr, timeouts, n0, n, from);
        WorkerRests(tr, timeouts, n0, from, m);
        StaysAlive(tr, timeouts, n0, m);
        HoldsAt(tr, timeouts, m);
        CanStep(tr.state(m));
      }
    }
    WeaklyFairly(tr, WorkerThread, n, from);
    k := NextStep(tr, WorkerThread, n);
    WorkerRests(tr, timeouts, n0, n, k);
    assert StepAt(tr, k);
  }

  // ---------- from one pop to the next ----------

  /** How far the worker is from its next pop, as long as no report fails. */
  function PopRank(w: WorkerPc): (nat, nat) {
    match w
    case Storing => (13, 0)
    case GivingBack => (12, 0)
    case Connecting(_) => (11, 0)
    case Opened(_) => (10, 0)
    case Greeting(_) => (9, 0)
    case PostRetry => (8, 0)
    case Testing => (7, 0)
    case Acquiring => (6, 0)
    case Acquired => (5, 0)
    case Locking => (4, 0)
    case Serving => (3, 0)
    case Handling(rest) => (2, |rest|)
    case Popping => (1, 0)
    case _ => (0, 0)
  }

  lemma StepTowardsPop(s: State, outcome: Outcome)
    requires WorkerEnabled(s) && Alive(s.worker) && !s.worker.Popping?
    requires s.worker.Storing? || s.client.poll
    requires s.worker.Connecting? || s.worker.Greeting? || s.worker.Handling? ==> outcome.Ok?
    requires s.worker.Serving? && s.client.queue[0].protocol.KTcp? ==> outcome.Ok?
    ensures Less(PopRank(ApplyWorker(s, outcome).worker), PopRank(s.worker))
    ensures ApplyWorker(s, outcome).client.queue == s.client.queue && ApplyWorker(s, outcome).past.popped == s.past.popped
  {
  }

  /** Step k pops, or is a failing report; the queue has not shrunk since n. */
  ghost predicate NextTry(tr: Trace, n: nat, k: nat) {
    && StepAt(tr, k) && tr.action(k).Work?
    && (tr.state(k).worker.Popping? || (Attempt(tr, k) && !tr.action(k).outcome.Ok?))
    && tr.state(n).client.queue <= tr.state(k).client.queue && tr.state(k).past.popped == tr.state(n).past.popped
  }

  /** As long as the worker is connecting, nothing is popped. */
  lemma {:induction false} ConnectingKeeps(tr: Trace, timeouts: seq<nat>, n: nat, m: nat) returns (j: nat)
    requires IsTrace(tr, timeouts) && n <= m && tr.state(n).worker.Connecting?
    ensures n <= j <= m && tr.state(j).worker == tr.state(n).worker
    ensures j == m || tr.state(j + 1).worker != tr.state(n).worker
    ensures tr.state(n).client.queue <= tr.state(j).client.queue && tr.state(j).past.popped == tr.state(n).past.popped
    decreases m - n
  {
    j := n;
    if n < m && tr.state(n + 1).worker == tr.state(n).worker {
      assert StepAt(tr, n);
      OnlyPopsPop(tr.state(n), tr.action(n));
      j := ConnectingKeeps(tr, timeouts, n + 1, m);
    }
  }

  /** A worker that stays connecting calls open() again and again. */
  lemma OpenComes(tr: Trace, timeouts: seq<nat>, n0: nat, n: nat, m: nat)
    requires Delivers(tr, timeouts, n0) && n0 <= n <= m && tr.state(n).client.queue != []
    requires tr.state(n).worker.Connecting? && forall k: nat :: k >= n ==> tr.state(k).worker == tr.state(n).worker
    ensures OpensLater(tr, m)
  {
    var j := ConnectingKeeps(tr, timeouts, n, m);
    var k := WorkerSteps(tr, timeouts, n0, m);
    HoldsAt(tr, timeouts, k);
    assert Opens(tr, k);
  }

  lemma AcceptedOpens(tr: Trace, timeouts: seq<nat>, a: nat) returns (m: nat)
    requires IsTrace(tr, timeouts) && Opens(tr, a) && tr.action(a).outcome.Ok?
    ensures m > a && tr.state(m).worker.Opened?
  {
    assert StepAt(tr, a);
    m := a + 1;
  }

  /** A connection is accepted in the end. */
  lemma LeavesConnecting(tr: Trace, timeouts: seq<nat>, n0: nat, n: nat) returns (m: nat)
    requires Delivers(tr, timeouts, n0) && n >= n0 && tr.state(n).client.queue != [] && tr.state(n).worker.Connecting?
    ensures m >= n && tr.state(m).worker != tr.state(n).worker
  {
    if m': nat :| m' >= n && tr.state(m').worker != tr.state(n).worker {
      m := m';
    } else {
      forall m: nat ensures OpensLater(tr, m) {
        OpenComes(tr, timeouts, n0, n, if m < n then n else m);
      }
      assert OpenedLater(tr, n);
      var a: nat :| a >= n && Opens(tr, a) && tr.action(a).outcome.Ok?;
      m := AcceptedOpens(tr, timeouts, a);
    }
  }

  /** The step that leaves the open() loop. */
  lemma ConnectionComes(tr: Trace, timeouts: seq<nat>, n0: nat, n: nat) returns (k: nat)
    requires Delivers(tr, timeouts, n0) && n >= n0 && tr.state(n).client.queue != [] && tr.state(n).worker.Connecting?
    ensures k >= n && StepAt(tr, k) && tr.state(k).worker == tr.state(n).worker && tr.state(k + 1).worker != tr.state(n).worker
    ensures tr.state(n).client.queue <= tr.state(k).client.queue && tr.state(k).past.popped == tr.state(n).past.popped
  {
    var m := LeavesConnecting(tr, timeouts, n0, n);
    k := ConnectingKeeps(tr, timeouts, n, m);
    assert StepAt(tr, k);
  }

  /** The step out of the open() loop leads on. */
  lemma ConnectionLeadsOn(tr: Trace, timeouts: seq<nat>, n0: nat, k: nat)
    requires Delivers(tr, timeouts, n0) && k >= n0 && StepAt(tr, k)
    requires tr.state(k).worker.Connecting? && tr.state(k + 1).worker != tr.state(k).worker
    ensures Less(PopRank(tr.state(k + 1).worker), PopRank(tr.state(k).worker))
    ensures tr.state(k).client.queue <= tr.state(k + 1).client.queue && tr.state(k + 1).past.popped == tr.state(k).past.popped
  {
    HoldsAt(tr, timeouts, k);
    StaysAlive(tr, timeouts, n0, k);
    AliveStep(tr.state(k), tr.action(k));
    OnlyPopsPop(tr.state(k), tr.action(k));
    if tr.action(k).Work? {
      StepTowardsPop(tr.state(k), tr.action(k).outcome);
    }
  }

  /** So does any other step of the worker that is not the next try. */
  lemma StepLeadsOn(tr: Trace, timeouts: seq<nat>, n0: nat, k: nat)
    requires Delivers(tr, timeouts, n0) && k >= n0 && StepAt(tr, k) && tr.action(k).Work?
    requires !tr.state(k).worker.Connecting? && !tr.state(k).worker.Popping? && !(Attempt(tr, k) && !tr.action(k).outcome.Ok?)
    ensures Less(PopRank(tr.state(k + 1).worker), PopRank(tr.state(k).worker))
    ensures tr.state(k).client.queue == tr.state(k + 1).client.queue && tr.state(k + 1).past.popped == tr.state(k).past.popped
  {
    HoldsAt(tr, timeouts, k);
    StaysAlive(tr, timeouts, n0, k);
    StepTowardsPop(tr.state(k), tr.action(k).outcome);
  }

  lemma {:induction false} TryComes(tr: Trace, timeouts: seq<nat>, n0: nat, n: nat) returns (k: nat)
    requires Delivers(tr, timeouts, n0) && n >= n0 && tr.state(n).client.queue != []
    ensures k >= n && NextTry(tr, n, k)
    ensures PopRank(tr.state(n).worker).0 <= 2 ==> tr.state(k).worker.Popping?
    decreases PopRank(tr.state(n).worker).0, PopRank(tr.state(n).worker).1
  {
    if tr.state(n).worker.Connecting? {
      k := ConnectionComes(tr, timeouts, n0, n);
      ConnectionLeadsOn(tr, timeouts, n0, k);
      k := TryComes(tr, timeouts, n0, k + 1);
    } else {
      k := WorkerSteps(tr, timeouts, n0, n);
      if !NextTry(tr, n, k) {
        StepLeadsOn(tr, timeouts, n0, k);
        k := TryComes(tr, timeouts, n0, k + 1);
      }
    }
  }

  ghost predicate PopsAfter(tr: Trace, n: nat, k: nat) {
    NextTry(tr, n, k) && tr.state(k).worker.Popping?
  }

  /** Without a pop the queue and the popped requests stay as they are, but for pushes. */
  lemma {:induction false} QueueStays(tr: Trace, timeouts: seq<nat>, n0: nat, n: nat, m: nat)
    requires Delivers(tr, timeouts, n0) && n0 <= n <= m
    requires forall k: nat :: n <= k < m ==> !PopsAfter(tr, n, k)
    ensures tr.state(n).client.queue <= tr.state(m).client.queue && tr.state(m).past.popped == tr.state(n).past.popped
  {
    if n < m {
      QueueStays(tr, timeouts, n0, n, m - 1);
      assert StepAt(tr, m - 1);
      assert !PopsAfter(tr, n, m - 1);
      OnlyPopsPop(tr.state(m - 1), tr.action(m - 1));
    }
  }

  lemma OnlyPopsPop(s: State, a: Action)
    requires Enabled(s, a) && !(a.Work? && s.worker.Popping?)
    ensures s.client.queue <= Apply(s, a).client.queue && Apply(s, a).past.popped == s.past.popped
  {
  }

  /** Without a pop up to m, the next thing to come is one, or a call of report. */
  lemma AttemptOrPop(tr: Trace, timeouts: seq<nat>, n0: nat, n: nat, m: nat) returns (k: nat)
    requires Delivers(tr, timeouts, n0) && n0 <= n <= m && tr.state(n).client.queue != []
    requires forall k: nat :: n <= k < m ==> !PopsAfter(tr, n, k)
    ensures k >= m && (Attempt(tr, k) || PopsAfter(tr, n, k))
  {
    QueueStays(tr, timeouts, n0, n, m);
    k := TryComes(tr, timeouts, n0, m);
  }

  /** A call of report that succeeds is followed by the pop. */
  lemma SuccessPops(tr: Trace, timeouts: seq<nat>, n0: nat, n: nat, m: nat) returns (k: nat)
    requires Delivers(tr, timeouts, n0) && n0 <= n <= m && tr.state(n).client.queue != []
    requires forall k: nat :: n <= k < m ==> !PopsAfter(tr, n, k)
    requires Attempt(tr, m) && tr.action(m).outcome.Ok?
    ensures k > m && PopsAfter(tr, n, k)
  {
    QueueStays(tr, timeouts, n0, n, m);
    assert StepAt(tr, m);
    SuccessIsHandled(tr.state(m));
    k := TryComes(tr, timeouts, n0, m + 1);
  }

  lemma SuccessIsHandled(s: State)
    requires WorkerEnabled(s) && s.worker.Serving? && s.client.queue[0].protocol.KTcp?
    ensures ApplyWorker(s, Ok).worker.Handling?
    ensures ApplyWorker(s, Ok).client == s.client && ApplyWorker(s, Ok).past.popped == s.past.popped
  {
  }

  /** A queue that is not empty is popped: each round of the worker pops or fails to
      report, and report does not fail for ever. */
  lemma PopComes(tr: Trace, timeouts: seq<nat>, n0: nat, n: nat) returns (k: nat)
    requires Delivers(tr, timeouts, n0) && n >= n0 && tr.state(n).client.queue != []
    ensures k >= n && PopsAfter(tr, n, k)
  {
    if k' : nat :| k' >= n && PopsAfter(tr, n, k') {
      k := k';
    } else {
      forall m: nat ensures AttemptLater(tr, m) {
        var k := AttemptOrPop(tr, timeouts, n0, n, if m < n then n else m);
        assert Attempt(tr, k);
      }
      assert SuccessLater(tr, n);
      var m: nat :| m >= n && Attempt(tr, m) && tr.action(m).outcome.Ok?;
      k := SuccessPops(tr, timeouts, n0, n, m);
    }
  }

  // ---------- the theorem ----------

  /** A pop takes the head: one request fewer is ahead of the others. */
  lemma PopTakesHead(tr: Trace, timeouts: seq<nat>, n: nat, k: nat)
    requires IsTrace(tr, timeouts) && PopsAfter(tr, n, k) && tr.state(n).client.queue != []
    ensures tr.state(k + 1).past.popped == tr.state(n).past.popped + tr.state(n).client.queue[..1]
    ensures tr.state(n).client.queue[1..] <= tr.state(k + 1).client.queue
  {
  }

  /** The first p + 1 requests of the queue are popped, in order. */
  lemma {:induction false} QueueDrains(tr: Trace, timeouts: seq<nat>, n0: nat, n: nat, p: nat) returns (m: nat)
    requires Delivers(tr, timeouts, n0) && n >= n0 && p < |tr.state(n).client.queue|
    ensures m >= n && tr.state(n).past.popped + tr.state(n).client.queue[..p + 1] <= tr.state(m).past.popped
    decreases p
  {
    var queue := tr.state(n).client.queue;
    var k := PopComes(tr, timeouts, n0, n);
    PopTakesHead(tr, timeouts, n, k);
    m := k + 1;
    if p > 0 {
      m := QueueDrains(tr, timeouts, n0, k + 1, p - 1);
      assert queue[..p + 1] == queue[..1] + queue[1..][..p];
      assert tr.state(k + 1).client.queue[..p] == queue[1..][..p];
    }
  }

  /** At least once: whatever is enqueued at any time is popped in the end, and what
      goes to the server is ingested before that. */
  lemma EverythingIsDelivered(tr: Trace, timeouts: seq<nat>, n0: nat, n: nat, e: Entry)
    requires Delivers(tr, timeouts, n0) && e in tr.state(n).past.enqueued
    ensures exists m: nat :: m >= n && e in tr.state(m).past.popped && (e.protocol.KTcp? ==> e in tr.state(m).server.log)
  {
    var from := if n < n0 then n0 else n;
    StaysEnqueued(tr, timeouts, n, from, e);
    var m := ComesToPop(tr, timeouts, n0, from, e);
    HoldsAt(tr, timeouts, m);
    if e.protocol.KTcp? {
      PoppedIsLogged(tr.state(m), e);
    }
  }

  lemma ComesToPop(tr: Trace, timeouts: seq<nat>, n0: nat, n: nat, e: Entry) returns (m: nat)
    requires Delivers(tr, timeouts, n0) && n >= n0 && e in tr.state(n).past.enqueued
    ensures m >= n && e in tr.state(m).past.popped
  {
    HoldsAt(tr, timeouts, n);
    var popped, queue := tr.state(n).past.popped, tr.state(n).client.queue;
    m := n;
    if e !in popped {
      var p :| 0 <= p < |queue| && queue[p] == e;
      m := QueueDrains(tr, timeouts, n0, n, p);
      assert e == (popped + queue[..p + 1])[|popped| + p];
    }
  }

  lemma {:induction false} StaysEnqueued(tr: Trace, timeouts: seq<nat>, n: nat, m: nat, e: Entry)
    requires IsTrace(tr, timeouts) && n <= m && e in tr.state(n).past.enqueued
    ensures e in tr.state(m).past.enqueued
  {
    if n < m {
      StaysEnqueued(tr, timeouts, n, m - 1, e);
      assert StepAt(tr, m - 1);
      EnqueuedGrows(tr.state(m - 1), tr.action(m - 1));
    }
  }

  lemma EnqueuedGrows(s: State, a: Action)
    requires Enabled(s, a)
    ensures s.past.enqueued <= Apply(s, a).past.enqueued
  {
  }
}
