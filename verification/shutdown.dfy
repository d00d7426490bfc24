/** RmsReporterClient::stop over infinite runs, with every thread scheduled fairly. It
    returns exactly if the run does not end in the deadlock of a worker that reconnects
    with mtx_ held and a consumer that waits for mtx_; so with the server reachable it
    returns, and in that deadlock it does not while the server stays away. */
module Shutdown {
  import opened Wire
  import opened DeliveryMachine
  import opened DeliveryInvariant
  import opened Delivery
  import opened DeliveryWitnesses
  import opened Traces

  /** main is inside RmsReporterClient::stop. */
  predicate InStop(m: MainPc) {
    !m.Starting? && !m.Running?
  }

  /** A fair run that is inside stop() at n0, after the worker's store of
      poll_requests_. The server may be away, for a time or for ever. */
  ghost predicate Stops(tr: Trace, timeouts: seq<nat>, n0: nat) {
    && IsTrace(tr, timeouts) && Fair(tr) && NothingThrows(tr, n0)
    && InStop(tr.state(n0).main) && HasStored(tr.state(n0).worker) && !tr.state(n0).worker.Crashed?
  }

  /** From n0 on, every connection is accepted. */
  ghost predicate ServerReachable(tr: Trace, n0: nat) {
    forall m: nat :: m >= n0 && tr.action(m).Work? && tr.state(m).worker.Connecting? ==> tr.action(m).outcome.Ok?
  }

  /** From m on the worker reconnects, in vain, with mtx_ held. */
  ghost predicate Reconnecting(tr: Trace, m: nat) {
    forall k: nat :: k >= m ==> tr.state(k).worker == Connecting(true)
  }

  ghost predicate StuckForGood(tr: Trace, m: nat) {
    forall k: nat :: k >= m ==> Stuck(tr.state(k))
  }

  // ---------- inside stop() ----------

  lemma {:induction false} StaysInStop(tr: Trace, timeouts: seq<nat>, n0: nat, n: nat)
    requires Stops(tr, timeouts, n0) && n >= n0
    ensures InStop(tr.state(n).main) && HasStored(tr.state(n).worker) && !tr.state(n).worker.Crashed?
  {
    if n > n0 {
      StaysInStop(tr, timeouts, n0, n - 1);
      HoldsAt(tr, timeouts, n - 1);
      assert StepAt(tr, n - 1);
      InStopStep(tr.state(n - 1), tr.action(n - 1));
    }
  }

  lemma InStopStep(s: State, a: Action)
    requires Enabled(s, a) && InStop(s.main) && HasStored(s.worker) && !s.worker.Crashed?
    requires a.Work? && (s.worker.Greeting? || s.worker.Handling?) ==> a.outcome.Ok?
    ensures InStop(Apply(s, a).main) && HasStored(Apply(s, a).worker) && !Apply(s, a).worker.Crashed?
  {
  }

  // ---------- the worker ----------

  lemma {:induction false} WorkerWaits(tr: Trace, timeouts: seq<nat>, n0: nat, n: nat, m: nat)
    requires Stops(tr, timeouts, n0) && n0 <= n <= m
    requires forall j: nat :: n <= j < m ==> !By(tr.action(j), WorkerThread)
    ensures tr.state(m).worker == tr.state(n).worker
  {
    if n < m {
      WorkerWaits(tr, timeouts, n0, n, m - 1);
      assert StepAt(tr, m - 1);
      StaysInStop(tr, timeouts, n0, m - 1);
    }
  }

  lemma WorkerCanStep(s: State)
    requires Safe(s) && PollOrder(s) && HasStored(s.worker) && !s.worker.Crashed? && !s.worker.Finished?
    requires s.worker.Acquiring? ==> StopReleased(s.main)
    ensures ThreadEnabled(s, WorkerThread)
  {
    assert By(Work(Ok), WorkerThread) && Enabled(s, Work(Ok));
  }

  /** How far the worker is from unlocking mtx_, or from its end once poll_requests_ is false. */
  function WorkerRank(w: WorkerPc): (nat, nat) {
    match w
    case Locking => (11, 0)
    case Serving => (10, 0)
    case Handling(rest) => (9, |rest|)
    case Popping => (8, 0)
    case GivingBack => (8, 0)
    case Connecting(_) => (7, 0)
    case Opened(_) => (6, 0)
    case Greeting(_) => (5, 0)
    case PostRetry => (4, 0)
    case Acquiring => (3, 0)
    case Acquired => (2, 0)
    case Testing => (1, 0)
    case _ => (0, 0)
  }

  lemma RankDecreases(s: State, outcome: Outcome)
    requires WorkerEnabled(s) && HasStored(s.worker)
    requires s.worker.Greeting? || s.worker.Handling? ==> outcome.Ok?
    requires HoldsMutex(s.worker) || !s.client.poll
    ensures if s.worker.Connecting? && s.client.poll && !outcome.Ok? then ApplyWorker(s, outcome).worker == s.worker
            else Less(WorkerRank(ApplyWorker(s, outcome).worker), WorkerRank(s.worker))
  {
  }

  /** The worker's next step after n: its pc has not moved before, and its rank falls,
      unless a connection fails. */
  lemma WorkerAdvances(tr: Trace, timeouts: seq<nat>, n0: nat, n: nat) returns (k: nat)
    requires Stops(tr, timeouts, n0) && n >= n0 && !tr.state(n).worker.Finished?
    requires HoldsMutex(tr.state(n).worker) || StopReleased(tr.state(n).main)
    ensures k >= n && StepAt(tr, k) && tr.action(k).Work?
    ensures Less(WorkerRank(tr.state(k + 1).worker), WorkerRank(tr.state(n).worker))
            || (tr.state(n).worker.Connecting? && !StopReleased(tr.state(n).main))
  {
    if !StepsLater(tr, WorkerThread, n) {
      forall m: nat | m >= n ensures EnabledLater(tr, WorkerThread, m) {
        WorkerWaits(tr, timeouts, n0, n, m);
        StaysReleased(tr, timeouts, n, m);
        StaysInStop(tr, timeouts, n0, m);
        HoldsAt(tr, timeouts, m);
        WorkerCanStep(tr.state(m));
      }
    }
    Fairly(tr, WorkerThread, n);
    k := NextStep(tr, WorkerThread, n);
    WorkerWaits(tr, timeouts, n0, n, k);
    StaysReleased(tr, timeouts, n, k);
    StaysInStop(tr, timeouts, n0, k);
    HoldsAt(tr, timeouts, k);
    assert StepAt(tr, k);
    RankDecreases(tr.state(k), tr.action(k).outcome);
  }

  lemma {:induction false} StaysReleased(tr: Trace, timeouts: seq<nat>, n: nat, m: nat)
    requires IsTrace(tr, timeouts) && n <= m
    ensures StopReleased(tr.state(n).main) ==> StopReleased(tr.state(m).main)
  {
    if n < m {
      StaysReleased(tr, timeouts, n, m - 1);
      assert StepAt(tr, m - 1);
      if StopReleased(tr.state(m - 1).main) {
        ReleasedStep(tr.state(m - 1), tr.action(m - 1));
      }
    }
  }

  lemma ReleasedStep(s: State, a: Action)
    requires Enabled(s, a) && StopReleased(s.main)
    ensures StopReleased(Apply(s, a).main)
  {
  }

  lemma LockedMeansHeld(tr: Trace, timeouts: seq<nat>, n0: nat, n: nat)
    requires Stops(tr, timeouts, n0) && n >= n0 && tr.state(n).client.locked
    ensures HoldsMutex(tr.state(n).worker) && !tr.state(n).worker.Finished?
  {
    HoldsAt(tr, timeouts, n);
    StaysInStop(tr, timeouts, n0, n);
  }

  /** The step that ends a reconnection. */
  lemma {:induction false} ReconnectionEnds(tr: Trace, n: nat, m: nat) returns (j: nat)
    requires n <= m && tr.state(n).worker == Connecting(true) && tr.state(m).worker != Connecting(true)
    ensures n <= j < m && tr.state(j).worker == Connecting(true) && tr.state(j + 1).worker != Connecting(true)
    decreases m - n
  {
    j := n;
    if tr.state(n + 1).worker == Connecting(true) {
      j := ReconnectionEnds(tr, n + 1, m);
    }
  }

  lemma EndOfReconnection(tr: Trace, timeouts: seq<nat>, n0: nat, j: nat)
    requires Stops(tr, timeouts, n0) && j >= n0
    requires tr.state(j).worker == Connecting(true) && tr.state(j + 1).worker != Connecting(true)
    ensures Less(WorkerRank(tr.state(j + 1).worker), WorkerRank(tr.state(j).worker))
  {
    StaysInStop(tr, timeouts, n0, j);
    assert StepAt(tr, j);
    if tr.action(j).Work? {
      RankDecreases(tr.state(j), tr.action(j).outcome);
    }
  }

  /** mtx_ becomes free, or the worker reconnects for good. */
  lemma {:induction false} MutexFreed(tr: Trace, timeouts: seq<nat>, n0: nat, n: nat) returns (m: nat)
    requires Stops(tr, timeouts, n0) && n >= n0
    ensures m >= n && (!tr.state(m).client.locked || Reconnecting(tr, m))
    decreases WorkerRank(tr.state(n).worker).0, WorkerRank(tr.state(n).worker).1
  {
    m := n;
    if tr.state(n).client.locked && !Reconnecting(tr, n) {
      LockedMeansHeld(tr, timeouts, n0, n);
      if tr.state(n).worker == Connecting(true) {
        var k: nat :| k >= n && tr.state(k).worker != Connecting(true);
        var j := ReconnectionEnds(tr, n, k);
        EndOfReconnection(tr, timeouts, n0, j);
        m := MutexFreed(tr, timeouts, n0, j + 1);
      } else {
        var k := WorkerAdvances(tr, timeouts, n0, n);
        m := MutexFreed(tr, timeouts, n0, k + 1);
      }
    }
  }

  lemma {:induction false} WorkerFinishes(tr: Trace, timeouts: seq<nat>, n0: nat, n: nat) returns (m: nat)
    requires Stops(tr, timeouts, n0) && n >= n0 && StopReleased(tr.state(n).main)
    ensures m >= n && tr.state(m).worker.Finished?
    decreases WorkerRank(tr.state(n).worker).0, WorkerRank(tr.state(n).worker).1
  {
    if tr.state(n).worker.Finished? {
      m := n;
    } else {
      var k := WorkerAdvances(tr, timeouts, n0, n);
      StaysReleased(tr, timeouts, n, k + 1);
      m := WorkerFinishes(tr, timeouts, n0, k + 1);
    }
  }

  // ---------- a consumer being joined ----------

  /** Consumer i has been told to stop. */
  ghost predicate Told(s: State, i: nat) {
    i < s.consumers && i < |s.producers| && s.producers[i].kind.Consumer? && !s.producers[i].consuming
  }

  lemma ToldStep(s: State, a: Action, i: nat)
    requires Enabled(s, a) && Told(s, i) && !s.main.Starting?
    ensures Told(Apply(s, a), i)
    ensures !By(a, ProducerThread(i)) ==> Apply(s, a).producers[i] == s.producers[i]
  {
  }

  lemma {:induction false} ConsumerWaits(tr: Trace, timeouts: seq<nat>, n0: nat, n: nat, m: nat, i: nat)
    requires Stops(tr, timeouts, n0) && n0 <= n <= m && Told(tr.state(n), i)
    ensures Told(tr.state(m), i)
    ensures (forall j: nat :: n <= j < m ==> !By(tr.action(j), ProducerThread(i)))
              ==> tr.state(m).producers[i] == tr.state(n).producers[i]
  {
    if n < m {
      ConsumerWaits(tr, timeouts, n0, n, m - 1, i);
      assert StepAt(tr, m - 1);
      StaysInStop(tr, timeouts, n0, m - 1);
      ToldStep(tr.state(m - 1), tr.action(m - 1), i);
    }
  }

  function ProducerRank(pc: ProducerPc): nat {
    match pc
    case Sending(_, _) => 4
    case Releasing => 3
    case Sleeping(_) => 2
    case Looping => 1
    case _ => 0
  }

  lemma ProducerRankDecreases(s: State, i: nat, protocol: Protocol, req: RmsRequest)
    requires Told(s, i) && Enabled(s, Produce(i, protocol, req))
    ensures ProducerRank(ApplyProducer(s, i, protocol, req).producers[i].pc) < ProducerRank(s.producers[i].pc)
  {
  }

  lemma ConsumerCanStep(s: State, i: nat)
    requires Told(s, i) && !s.worker.Crashed? && ProducerRank(s.producers[i].pc) > 0
    requires s.producers[i].pc.Sending? ==> !s.client.locked
    ensures ThreadEnabled(s, ProducerThread(i))
  {
    var a := Produce(i, KTcp, RmsRequest(0, []));
    assert By(a, ProducerThread(i)) && Enabled(s, a);
  }

  /** Consumer i waits for mtx_, which the worker holds for good. */
  ghost predicate Blocked(tr: Trace, m: nat, i: nat) {
    Told(tr.state(m), i) && tr.state(m).producers[i].pc.Sending? && Reconnecting(tr, m)
  }

  /** A consumer that does not step is enabled again and again, or blocked. */
  lemma ConsumerEnabled(tr: Trace, timeouts: seq<nat>, n0: nat, n: nat, i: nat, m: nat) returns (k: nat)
    requires Stops(tr, timeouts, n0) && n0 <= n <= m && Told(tr.state(n), i)
    requires ProducerRank(tr.state(n).producers[i].pc) > 0 && !StepsLater(tr, ProducerThread(i), n)
    ensures k >= m && (ThreadEnabled(tr.state(k), ProducerThread(i)) || Blocked(tr, k, i))
  {
    k := MutexFreed(tr, timeouts, n0, m);
    ConsumerWaits(tr, timeouts, n0, n, k, i);
    StaysInStop(tr, timeouts, n0, k);
    if !Blocked(tr, k, i) {
      ConsumerCanStep(tr.state(k), i);
    }
  }

  /** The consumer's next step takes it nearer to its end; or it is blocked. */
  lemma ConsumerAdvances(tr: Trace, timeouts: seq<nat>, n0: nat, n: nat, i: nat) returns (k: nat)
    requires Stops(tr, timeouts, n0) && n >= n0 && Told(tr.state(n), i)
    requires ProducerRank(tr.state(n).producers[i].pc) > 0
    ensures k >= n && Told(tr.state(k), i)
    ensures ProducerRank(tr.state(k).producers[i].pc) < ProducerRank(tr.state(n).producers[i].pc) || Blocked(tr, k, i)
  {
    var t := ProducerThread(i);
    if !StepsLater(tr, t, n) && exists m: nat :: m >= n && Blocked(tr, m, i) {
      k :| k >= n && Blocked(tr, k, i);
    } else {
      if !StepsLater(tr, t, n) {
        forall m: nat | m >= n ensures EnabledLater(tr, t, m) {
          var m' := ConsumerEnabled(tr, timeouts, n0, n, i, m);
          assert !Blocked(tr, m', i);
        }
      }
      Fairly(tr, t, n);
      k := NextStep(tr, t, n);
      ConsumerSteps(tr, timeouts, n0, n, k, i);
      k := k + 1;
    }
  }

  lemma ConsumerSteps(tr: Trace, timeouts: seq<nat>, n0: nat, n: nat, k: nat, i: nat)
    requires Stops(tr, timeouts, n0) && n0 <= n <= k && Told(tr.state(n), i)
    requires By(tr.action(k), ProducerThread(i)) && forall j: nat :: n <= j < k ==> !By(tr.action(j), ProducerThread(i))
    ensures Told(tr.state(k + 1), i)
    ensures ProducerRank(tr.state(k + 1).producers[i].pc) < ProducerRank(tr.state(n).producers[i].pc)
  {
    ConsumerWaits(tr, timeouts, n0, n, k, i);
    assert StepAt(tr, k);
    ProducerRankDecreases(tr.state(k), i, tr.action(k).protocol, tr.action(k).req);
    ConsumerWaits(tr, timeouts, n0, n, k + 1, i);
  }

  /** A consumer told to stop exits, or is blocked for good. */
  lemma {:induction false} ConsumerExits(tr: Trace, timeouts: seq<nat>, n0: nat, n: nat, i: nat) returns (m: nat)
    requires Stops(tr, timeouts, n0) && n >= n0 && Told(tr.state(n), i)
    ensures m >= n && Told(tr.state(m), i) && (tr.state(m).producers[i].pc.Exited? || Blocked(tr, m, i))
    decreases ProducerRank(tr.state(n).producers[i].pc)
  {
    HoldsAt(tr, timeouts, n);
    StaysInStop(tr, timeouts, n0, n);
    m := n;
    if !tr.state(n).producers[i].pc.Exited? {
      m := ConsumerAdvances(tr, timeouts, n0, n, i);
      if !Blocked(tr, m, i) {
        m := ConsumerExits(tr, timeouts, n0, m, i);
      }
    }
  }

  // ---------- a blocked consumer that main joins ----------

  /** main does not get past a consumer that has not exited. */
  lemma {:induction false} JoinWaits(tr: Trace, timeouts: seq<nat>, n0: nat, n: nat, m: nat, i: nat)
    requires Stops(tr, timeouts, n0) && n0 <= n <= m && Told(tr.state(n), i) && tr.state(n).main == Joining(i)
    requires Told(tr.state(m), i) && !tr.state(m).producers[i].pc.Exited?
    ensures tr.state(m).main == Joining(i)
  {
    if n < m {
      ConsumerWaits(tr, timeouts, n0, n, m - 1, i);
      if tr.state(m - 1).producers[i].pc.Exited? {
        ExitedStays(tr, timeouts, n0, m - 1, m, i);
      }
      JoinWaits(tr, timeouts, n0, n, m - 1, i);
      assert StepAt(tr, m - 1);
      OnlyMainMoves(tr.state(m - 1), tr.action(m - 1));
    }
  }

  lemma BlockedIsStuck(tr: Trace, timeouts: seq<nat>, n0: nat, m: nat, i: nat)
    requires Stops(tr, timeouts, n0) && m >= n0 && Blocked(tr, m, i) && tr.state(m).main == Joining(i)
    ensures StuckForGood(tr, m)
  {
    HoldsAt(tr, timeouts, m);
    forall k: nat | k >= m ensures Stuck(tr.state(k)) {
      StaysStuck(tr, timeouts, m, k);
    }
  }

  lemma {:induction false} StaysStuck(tr: Trace, timeouts: seq<nat>, m: nat, k: nat)
    requires IsTrace(tr, timeouts) && Stuck(tr.state(m)) && Reconnecting(tr, m) && k >= m
    ensures Stuck(tr.state(k))
  {
    if k > m {
      StaysStuck(tr, timeouts, m, k - 1);
      assert StepAt(tr, k - 1);
      assert tr.state(k).worker == Connecting(true);
      StuckIsClosed(tr.state(k - 1), tr.action(k - 1));
    }
  }

  lemma {:induction false} ExitedStays(tr: Trace, timeouts: seq<nat>, n0: nat, n: nat, m: nat, i: nat)
    requires Stops(tr, timeouts, n0) && n0 <= n <= m && Told(tr.state(n), i) && tr.state(n).producers[i].pc.Exited?
    ensures Told(tr.state(m), i) && tr.state(m).producers[i].pc.Exited?
  {
    if n < m {
      ExitedStays(tr, timeouts, n0, n, m - 1, i);
      assert StepAt(tr, m - 1);
      StaysInStop(tr, timeouts, n0, m - 1);
      ToldStep(tr.state(m - 1), tr.action(m - 1), i);
    }
  }

  lemma {:induction false} FinishedStays(tr: Trace, timeouts: seq<nat>, n0: nat, n: nat, m: nat)
    requires Stops(tr, timeouts, n0) && n0 <= n <= m && tr.state(n).worker.Finished?
    ensures tr.state(m).worker == tr.state(n).worker
  {
    if n < m {
      FinishedStays(tr, timeouts, n0, n, m - 1);
      assert StepAt(tr, m - 1);
      StaysInStop(tr, timeouts, n0, m - 1);
    }
  }

  // ---------- main ----------

  function MainRank(m: MainPc, n: nat): int {
    match m
    case Stopping(i) => 2 * (n - i) + 6
    case Joining(i) => 2 * (n - i) + 5
    case StorePoll => 5
    case ReleaseStop => 4
    case JoinWorker => 3
    case Closing => 2
    case Done => 0
    case _ => 0
  }

  lemma {:induction false} MainWaits(tr: Trace, timeouts: seq<nat>, n0: nat, n: nat, m: nat)
    requires Stops(tr, timeouts, n0) && n0 <= n <= m
    requires forall j: nat :: n <= j < m ==> !By(tr.action(j), MainThread)
    ensures tr.state(m).main == tr.state(n).main
  {
    if n < m {
      MainWaits(tr, timeouts, n0, n, m - 1);
      assert StepAt(tr, m - 1);
      StaysInStop(tr, timeouts, n0, m - 1);
      OnlyMainMoves(tr.state(m - 1), tr.action(m - 1));
    }
  }

  lemma OnlyMainMoves(s: State, a: Action)
    requires Enabled(s, a) && !a.Main? && InStop(s.main)
    ensures Apply(s, a).main == s.main
  {
  }

  lemma MainCanStep(s: State)
    requires MainEnabled(s) && !s.worker.Crashed?
    ensures ThreadEnabled(s, MainThread)
  {
    assert By(Main, MainThread) && Enabled(s, Main);
  }

  lemma MainRankDecreases(s: State)
    requires Layout(s) && InStop(s.main) && MainEnabled(s)
    ensures MainRank(ApplyMain(s).main, s.consumers) < MainRank(s.main, s.consumers)
  {
  }

  lemma MainAdvances(tr: Trace, timeouts: seq<nat>, n0: nat, n: nat) returns (k: nat)
    requires Stops(tr, timeouts, n0) && n >= n0 && !tr.state(n).main.Done?
    ensures k >= n
    ensures MainRank(tr.state(k).main, |timeouts|) < MainRank(tr.state(n).main, |timeouts|) || StuckForGood(tr, k)
  {
    k := MainUnblocked(tr, timeouts, n0, n);
    if !StuckForGood(tr, k) {
      if !StepsLater(tr, MainThread, n) {
        forall m: nat | m >= n ensures EnabledLater(tr, MainThread, m) {
          MainReady(tr, timeouts, n0, n, k, if m < k then k else m);
        }
      }
      Fairly(tr, MainThread, n);
      k := NextStep(tr, MainThread, n);
      MainWaits(tr, timeouts, n0, n, k);
      HoldsAt(tr, timeouts, k);
      StaysInStop(tr, timeouts, n0, k);
      assert StepAt(tr, k);
      MainRankDecreases(tr.state(k));
      k := k + 1;
    }
  }

  /** While main does not step, it can, once the thread that it joins is gone. */
  lemma MainReady(tr: Trace, timeouts: seq<nat>, n0: nat, n: nat, from: nat, m: nat)
    requires Stops(tr, timeouts, n0) && n0 <= n <= from <= m && !tr.state(n).main.Done?
    requires !StepsLater(tr, MainThread, n)
    requires tr.state(n).main.Joining? ==>
              Told(tr.state(from), tr.state(n).main.i) && tr.state(from).producers[tr.state(n).main.i].pc.Exited?
    requires tr.state(n).main.JoinWorker? ==> tr.state(from).worker.Finished?
    ensures ThreadEnabled(tr.state(m), MainThread)
  {
    MainWaits(tr, timeouts, n0, n, m);
    HoldsAt(tr, timeouts, m);
    StaysInStop(tr, timeouts, n0, m);
    if tr.state(n).main.Joining? {
      ExitedStays(tr, timeouts, n0, from, m, tr.state(n).main.i);
    } else if tr.state(n).main.JoinWorker? {
      FinishedStays(tr, timeouts, n0, from, m);
    }
    MainCanStep(tr.state(m));
  }

  /** A position from which on the thread that main joins, if any, is gone; or main is
      stuck for good. */
  lemma MainUnblocked(tr: Trace, timeouts: seq<nat>, n0: nat, n: nat) returns (m: nat)
    requires Stops(tr, timeouts, n0) && n >= n0
    ensures m >= n
    ensures !StuckForGood(tr, m) && tr.state(n).main.Joining? ==>
              Told(tr.state(m), tr.state(n).main.i) && tr.state(m).producers[tr.state(n).main.i].pc.Exited?
    ensures tr.state(n).main.JoinWorker? ==> tr.state(m).worker.Finished?
  {
    HoldsAt(tr, timeouts, n);
    m := n;
    if tr.state(n).main.Joining? {
      var i := tr.state(n).main.i;
      m := ConsumerExits(tr, timeouts, n0, n, i);
      if Blocked(tr, m, i) {
        JoinWaits(tr, timeouts, n0, n, m, i);
        BlockedIsStuck(tr, timeouts, n0, m, i);
      }
    } else if tr.state(n).main.JoinWorker? {
      m := WorkerFinishes(tr, timeouts, n0, n);
    }
  }

  lemma MainRankNatural(tr: Trace, timeouts: seq<nat>, n: nat)
    requires IsTrace(tr, timeouts)
    ensures MainRank(tr.state(n).main, |timeouts|) >= 0
  {
    HoldsAt(tr, timeouts, n);
  }

  lemma {:induction false} StopReturns(tr: Trace, timeouts: seq<nat>, n0: nat, n: nat) returns (m: nat)
    requires Stops(tr, timeouts, n0) && n >= n0
    ensures m >= n && (tr.state(m).main.Done? || StuckForGood(tr, m))
    decreases MainRank(tr.state(n).main, |timeouts|)
  {
    m := n;
    if !tr.state(n).main.Done? {
      MainRankNatural(tr, timeouts, n);
      m := MainAdvances(tr, timeouts, n0, n);
      if !StuckForGood(tr, m) {
        m := StopReturns(tr, timeouts, n0, m);
      }
    }
  }

  lemma {:induction false} DoneStays(tr: Trace, timeouts: seq<nat>, n: nat, m: nat)
    requires IsTrace(tr, timeouts) && n <= m && tr.state(n).main.Done?
    ensures tr.state(m).main.Done?
  {
    if n < m {
      DoneStays(tr, timeouts, n, m - 1);
      assert StepAt(tr, m - 1);
    }
  }

  /** stop() returns exactly if the run does not end in the deadlock {the worker
      reconnects with mtx_ held, main joins a consumer that waits for mtx_}. */
  lemma StopReturnsExact(tr: Trace, timeouts: seq<nat>, n0: nat)
    requires Stops(tr, timeouts, n0)
    ensures (exists m: nat :: tr.state(m).main.Done?) <==> !(exists m: nat :: StuckForGood(tr, m))
  {
    var m := StopReturns(tr, timeouts, n0, n0);
    forall n: nat, k: nat | tr.state(n).main.Done? ensures !StuckForGood(tr, k) {
      DoneIsNotStuck(tr, timeouts, n, k);
    }
  }

  lemma DoneIsNotStuck(tr: Trace, timeouts: seq<nat>, n: nat, k: nat)
    requires IsTrace(tr, timeouts) && tr.state(n).main.Done?
    ensures !StuckForGood(tr, k)
  {
    var later := if n < k then k else n;
    DoneStays(tr, timeouts, n, later);
    assert !Stuck(tr.state(later));
  }

  /** An accepted connection ends the deadlock. */
  lemma ReachableIsNotStuck(tr: Trace, timeouts: seq<nat>, n0: nat, m: nat)
    requires Stops(tr, timeouts, n0) && ServerReachable(tr, n0)
    ensures !StuckForGood(tr, m)
  {
    var n := if m < n0 then n0 else m;
    if Stuck(tr.state(n)) {
      var k := WorkerAdvances(tr, timeouts, n0, n);
      assert Stuck(tr.state(k)) ==> !Stuck(tr.state(k + 1));
    }
  }

  /** With the server reachable, stop() returns in every fair run, and then every
      consumer and the worker have left their thread functions. */
  lemma StopTerminates(tr: Trace, timeouts: seq<nat>, n0: nat)
    requires Stops(tr, timeouts, n0) && ServerReachable(tr, n0)
    ensures exists m: nat :: m >= n0 && tr.state(m).main.Done? && tr.state(m).worker.Finished?
              && forall i :: 0 <= i < |timeouts| ==> i < |tr.state(m).producers| && tr.state(m).producers[i].pc.Exited?
  {
    var m := StopReturns(tr, timeouts, n0, n0);
    ReachableIsNotStuck(tr, timeouts, n0, m);
    HoldsAt(tr, timeouts, m);
  }

  // ---------- the server stays away ----------

  /** In a stuck state with no connection ever accepted again, stop() never returns,
      however the threads are scheduled. */
  lemma {:induction false} StopNeverReturns(tr: Trace, timeouts: seq<nat>, n0: nat, n: nat)
    requires IsTrace(tr, timeouts) && Stuck(tr.state(n0)) && n >= n0
    requires forall m: nat :: m >= n0 && tr.action(m).Work? ==> !tr.action(m).outcome.Ok?
    ensures Stuck(tr.state(n)) && tr.state(n).main == tr.state(n0).main
  {
    if n > n0 {
      StopNeverReturns(tr, timeouts, n0, n - 1);
      assert StepAt(tr, n - 1);
      StuckIsClosed(tr.state(n - 1), tr.action(n - 1));
    }
  }
}
