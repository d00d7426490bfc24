/** Reachable states that show what the protocol does not guarantee, and the exact
    conditions under which they are reachable. */
module DeliveryWitnesses {
  import opened Wire
  import opened DeliveryMachine
  import opened DeliveryInvariant
  import opened Delivery

  /** A single consumer. */
  const ALONE: seq<nat> := [0]

  ghost predicate ReachableFrom(s: State, s': State) {
    exists actions :: IsRun(s, actions) && Exec(s, actions) == s'
  }

  ghost predicate Reachable(timeouts: seq<nat>, s: State) {
    ReachableFrom(Init(timeouts), s)
  }

  lemma Onto(from: State, s: State, a: Action)
    requires ReachableFrom(from, s) && Enabled(s, a)
    ensures ReachableFrom(from, Apply(s, a))
  {
    var actions :| IsRun(from, actions) && Exec(from, actions) == s;
    RunAppend(from, actions, a);
  }

  lemma Extend(timeouts: seq<nat>, s: State, a: Action)
    requires Reachable(timeouts, s) && Enabled(s, a)
    ensures Reachable(timeouts, Apply(s, a))
  {
    Onto(Init(timeouts), s, a);
  }

  lemma Stay(s: State)
    ensures ReachableFrom(s, s)
  {
    assert IsRun(s, []) && Exec(s, []) == s;
  }

  // ---------- starting and stopping the consumers ----------

  /** The first k consumers in their loop, the others not started. */
  function Looped(timeouts: seq<nat>, k: nat): seq<Producer> {
    seq(|timeouts|, i requires 0 <= i < |timeouts| =>
      Producer(Consumer(timeouts[i]), i < k, if i < k then Looping else Unstarted))
  }

  /** The first k consumers joined, the others in their loop. */
  function Stopped(timeouts: seq<nat>, k: nat): seq<Producer> {
    seq(|timeouts|, i requires 0 <= i < |timeouts| =>
      Producer(Consumer(timeouts[i]), i >= k, if i < k then Exited else Looping))
  }

  lemma {:induction false} StartReaches(timeouts: seq<nat>, k: nat)
    requires k <= |timeouts|
    ensures Reachable(timeouts, Init(timeouts).(producers := Looped(timeouts, k), main := Starting(k)))
  {
    if k == 0 {
      assert Looped(timeouts, 0) == Init(timeouts).producers;
      assert IsRun(Init(timeouts), []) && Exec(Init(timeouts), []) == Init(timeouts);
    } else {
      StartReaches(timeouts, k - 1);
      var s := Init(timeouts).(producers := Looped(timeouts, k - 1), main := Starting(k - 1));
      Extend(timeouts, s, Main);
      assert Apply(s, Main).producers == Looped(timeouts, k);
    }
  }

  /** start() has returned; the worker has not run yet. */
  function Launched(timeouts: seq<nat>): State {
    Init(timeouts).(producers := Looped(timeouts, |timeouts|), main := Running, worker := Storing)
  }

  lemma LaunchReaches(timeouts: seq<nat>)
    ensures Reachable(timeouts, Launched(timeouts))
  {
    StartReaches(timeouts, |timeouts|);
    var s := Init(timeouts).(producers := Looped(timeouts, |timeouts|), main := Starting(|timeouts|));
    Extend(timeouts, s, Main);
  }

  lemma {:induction false} StopReaches(timeouts: seq<nat>, k: nat)
    requires k <= |timeouts|
    ensures Reachable(timeouts, Launched(timeouts).(producers := Stopped(timeouts, k), main := Stopping(k)))
  {
    if k == 0 {
      LaunchReaches(timeouts);
      Extend(timeouts, Launched(timeouts), Signal);
      assert Stopped(timeouts, 0) == Looped(timeouts, |timeouts|);
    } else {
      StopReaches(timeouts, k - 1);
      var s := Launched(timeouts).(producers := Stopped(timeouts, k - 1), main := Stopping(k - 1));
      Extend(timeouts, s, Main);
      var s1 := Apply(s, Main);
      var exit := Produce(k - 1, KTcp, RmsRequest(0, []));
      Extend(timeouts, s1, exit);
      var s2 := Apply(s1, exit);
      Extend(timeouts, s2, Main);
      assert s2.producers == Stopped(timeouts, k);
    }
  }

  /** The worker connects, takes a token and the mutex, and looks at the head. */
  function Served(s: State): State
    requires s.client.sem > 0
  {
    s.(server := s.server.(sessions := s.server.sessions + [Session([], [], [])]),
       client := s.client.(sem := s.client.sem - 1, locked := true), worker := Serving)
  }

  lemma ConnectReaches(timeouts: seq<nat>, s: State)
    requires Reachable(timeouts, s) && s.worker == Connecting(false) && s.client.poll && s.client.sem > 0
    ensures Reachable(timeouts, s.(server := Served(s).server, worker := Acquiring))
  {
    Extend(timeouts, s, Work(Ok));
    var s1 := s.(server := Served(s).server, worker := Opened(false));
    Extend(timeouts, s1, Work(Ok));
    Extend(timeouts, s1.(worker := Greeting(false)), Work(Ok));
    Extend(timeouts, s1.(worker := Testing), Work(Ok));
  }

  lemma ServeReaches(timeouts: seq<nat>, s: State)
    requires Reachable(timeouts, s) && s.worker == Connecting(false) && s.client.poll && !s.client.locked && s.client.sem > 0
    ensures Reachable(timeouts, Served(s))
  {
    ConnectReaches(timeouts, s);
    var s1 := s.(server := Served(s).server, worker := Acquiring);
    Extend(timeouts, s1, Work(Ok));
    var s2 := s1.(client := s1.client.(sem := s.client.sem - 1), worker := Acquired);
    Extend(timeouts, s2, Work(Ok));
    Extend(timeouts, s2.(worker := Locking), Work(Ok));
  }

  // ---------- stop() before the worker's store ----------

  /** If main stores false before the worker stores true, the stop token sends the
      worker to front() of an empty queue. */
  lemma EarlyStopReachesEmptyFront(timeouts: seq<nat>)
    ensures exists s :: Reachable(timeouts, s) && s.worker.Serving? && s.client.queue == []
  {
    var n := |timeouts|;
    StopReaches(timeouts, n);
    var s0 := Launched(timeouts).(producers := Stopped(timeouts, n), main := Stopping(n));
    Extend(timeouts, s0, Main);
    var s1 := s0.(main := StorePoll);
    Extend(timeouts, s1, Main);          // poll_requests_ = false
    var s2 := s1.(main := ReleaseStop);
    Extend(timeouts, s2, Work(Ok));      // poll_requests_ = true
    var s3 := s2.(client := s2.client.(poll := true), worker := Connecting(false));
    Extend(timeouts, s3, Main);          // the stop token
    var s4 := s3.(client := s3.client.(sem := 1), main := JoinWorker);
    ServeReaches(timeouts, s4);
  }

  // ---------- the declared maximum of the semaphore ----------

  const PING := RmsRequest(0, [Ping])

  /** Consumer i goes from its loop through one sendRequest, up to the release. */
  function Pushed(s: State, i: nat): State
    requires i < |s.producers|
  {
    var e := Entry(|s.past.enqueued|, KTcp, PING);
    s.(producers := s.producers[i := s.producers[i].(pc := Releasing)],
       client := s.client.(queue := s.client.queue + [e]),
       past := s.past.(enqueued := s.past.enqueued + [e]))
  }

  lemma PushReaches(timeouts: seq<nat>, s: State, i: nat)
    requires Reachable(timeouts, s) && !s.worker.Crashed? && !s.client.locked
    requires i < |s.producers| && s.producers[i].kind.Consumer? && s.producers[i].consuming && s.producers[i].pc.Looping?
    ensures Reachable(timeouts, Pushed(s, i))
  {
    Extend(timeouts, s, Produce(i, KTcp, PING));
    var s1 := s.(producers := s.producers[i := s.producers[i].(pc := Sending(KTcp, PING))]);
    Extend(timeouts, s1, Produce(i, KTcp, PING));
    assert Apply(s1, Produce(i, KTcp, PING)) == Pushed(s, i) by {
      assert s1.producers[i := s1.producers[i].(pc := Releasing)] == s.producers[i := s.producers[i].(pc := Releasing)];
    }
  }

  lemma {:induction false} WakeReaches(timeouts: seq<nat>, s: State, i: nat)
    requires Reachable(timeouts, s) && !s.worker.Crashed? && i < |s.producers|
    requires s.producers[i].kind.Consumer? && s.producers[i].pc.Sleeping?
    ensures Reachable(timeouts, s.(producers := s.producers[i := s.producers[i].(pc := Looping)]))
    decreases if s.producers[i].pc.elapsed < s.producers[i].kind.timeout then s.producers[i].kind.timeout - s.producers[i].pc.elapsed else 0
  {
    var a := Produce(i, KTcp, PING);
    Extend(timeouts, s, a);
    var s1 := Apply(s, a);
    if s1.producers[i].pc.Sleeping? {
      WakeReaches(timeouts, s1, i);
      assert s1.producers[i := s1.producers[i].(pc := Looping)] == s.producers[i := s.producers[i].(pc := Looping)];
    }
  }

  /** Consumer 0 has put one request into the queue, and is back in its loop. */
  function Queued(timeouts: seq<nat>): State
    requires |timeouts| >= 1
  {
    var s := Pushed(Launched(timeouts), 0);
    s.(producers := s.producers[0 := s.producers[0].(pc := Looping)], client := s.client.(sem := 1))
  }

  lemma QueuedReaches(timeouts: seq<nat>)
    requires |timeouts| >= 1
    ensures Reachable(timeouts, Queued(timeouts))
  {
    LaunchReaches(timeouts);
    PushReaches(timeouts, Launched(timeouts), 0);
    var s0 := Pushed(Launched(timeouts), 0);
    Extend(timeouts, s0, Produce(0, KTcp, PING));
    var s1 := s0.(producers := s0.producers[0 := s0.producers[0].(pc := Sleeping(0))], client := s0.client.(sem := 1));
    WakeReaches(timeouts, s1, 0);
    assert s1.producers[0 := s1.producers[0].(pc := Looping)] == s0.producers[0 := s0.producers[0].(pc := Looping)];
  }

  /** The action is a call of request_counter_.release(). */
  predicate Releases(s: State, a: Action) {
    || (a.Produce? && a.i < |s.producers| && s.producers[a.i].pc.Releasing?)
    || (a.Main? && s.main.ReleaseStop?)
    || (a.Work? && s.worker.GivingBack?)
  }

  /** A release that finds the counter at 1. */
  ghost predicate ReleaseAtMaximum(timeouts: seq<nat>, s: State, a: Action) {
    Reachable(timeouts, s) && Enabled(s, a) && Releases(s, a) && s.client.sem >= 1
  }

  /** A consumer can release a second time before the worker acquires once. */
  lemma ReleaseAtMaximumReachable(timeouts: seq<nat>)
    requires |timeouts| >= 1
    ensures exists s :: ReleaseAtMaximum(timeouts, s, Produce(0, KTcp, PING)) && s.client.sem == 1
  {
    QueuedReaches(timeouts);
    PushReaches(timeouts, Queued(timeouts), 0);
    assert ReleaseAtMaximum(timeouts, Pushed(Queued(timeouts), 0), Produce(0, KTcp, PING));
  }

  /** No thread has ever sent anything. */
  ghost predicate Silent(s: State) {
    s.producers == [] && s.past.enqueued == []
  }

  lemma SilentStep(s: State, a: Action)
    requires Layout(s) && QueueConserved(s) && Silent(s) && Enabled(s, a)
    ensures Silent(Apply(s, a))
  {
    if a.Work? {
      assert !s.worker.Handling?;
    }
  }

  lemma SilentRelease(s: State, a: Action)
    requires TokensConserved(s) && QueueConserved(s) && Silent(s) && Enabled(s, a) && Releases(s, a)
    ensures s.client.sem == 0
  {
    assert NumReleasing(s.producers) == 0;
  }

  lemma {:induction false} SilentRun(s: State, actions: seq<Action>)
    requires Safe(s) && Silent(s) && IsRun(s, actions)
    ensures Safe(Exec(s, actions)) && Silent(Exec(s, actions))
    decreases |actions|
  {
    if |actions| > 0 {
      SafeStep(s, actions[0]);
      SilentStep(s, actions[0]);
      SilentRun(Apply(s, actions[0]), actions[1..]);
    }
  }

  /** request_counter_, declared with maximum 1, can be released at 1, against the
      precondition of release in section [thread.sema.cnt] of ISO/IEC 14882:2020,
      exactly if there is a consumer. */
  lemma ReleaseAtMaximumExact(timeouts: seq<nat>)
    ensures (exists s, a :: ReleaseAtMaximum(timeouts, s, a)) <==> |timeouts| >= 1
  {
    if |timeouts| >= 1 {
      ReleaseAtMaximumReachable(timeouts);
    } else {
      forall s, a ensures !ReleaseAtMaximum(timeouts, s, a) {
        if Reachable(timeouts, s) && Enabled(s, a) && Releases(s, a) {
          var actions :| IsRun(Init(timeouts), actions) && Exec(Init(timeouts), actions) == s;
          SafeInit(timeouts);
          SilentRun(Init(timeouts), actions);
          SilentRelease(s, a);
        }
      }
    }
  }

  // ---------- stop() while the server is unreachable ----------

  /** The worker reconnects with mtx_ held, and main joins a consumer that waits for mtx_. */
  ghost predicate Stuck(s: State) {
    && s.worker == Connecting(true) && s.client.poll && s.client.locked
    && s.main.Joining? && s.main.i < |s.producers| && s.producers[s.main.i].pc.Sending?
  }

  /** Consumer 0 waits for mtx_ with a second request, and main joins it. */
  function Deadlocked(timeouts: seq<nat>): State
    requires |timeouts| >= 1
  {
    var s := Retrying(timeouts);
    s.(producers := s.producers[0 := s.producers[0].(consuming := false, pc := Sending(KTcp, PING))], main := Joining(0))
  }

  /** One consumer is enough: it enters sendRequest again while the worker reconnects. */
  lemma StuckReachable(timeouts: seq<nat>)
    requires |timeouts| >= 1
    ensures Reachable(timeouts, Deadlocked(timeouts)) && Stuck(Deadlocked(timeouts))
  {
    WorkerRetries(timeouts);
    var s0 := Retrying(timeouts);
    Extend(timeouts, s0, Produce(0, KTcp, PING));
    var s1 := Apply(s0, Produce(0, KTcp, PING));
    Extend(timeouts, s1, Signal);
    Extend(timeouts, s1.(main := Stopping(0)), Main);
    var s2 := Apply(s1.(main := Stopping(0)), Main);
    assert s2.producers == Deadlocked(timeouts).producers;
  }

  /** The exact condition: without consumers main joins none. */
  lemma StuckReachableExact(timeouts: seq<nat>)
    ensures (exists s :: Reachable(timeouts, s) && Stuck(s)) <==> |timeouts| >= 1
  {
    if |timeouts| >= 1 {
      StuckReachable(timeouts);
    } else {
      forall s | Reachable(timeouts, s) ensures !Stuck(s) {
        var actions :| IsRun(Init(timeouts), actions) && Exec(Init(timeouts), actions) == s;
        SafeInit(timeouts);
        SilentRun(Init(timeouts), actions);
      }
    }
  }

  /** Connected once, one request queued, its send failed. */
  function Retrying(timeouts: seq<nat>): State
    requires |timeouts| >= 1
  {
    var s := Queued(timeouts);
    s.(client := Client(s.client.queue, 1, true, true),
       server := s.server.(sessions := [Session([], [], [])]),
       worker := Connecting(true))
  }

  lemma WorkerRetries(timeouts: seq<nat>)
    requires |timeouts| >= 1
    ensures Reachable(timeouts, Retrying(timeouts))
  {
    QueuedReaches(timeouts);
    var s1 := Queued(timeouts);
    Extend(timeouts, s1, Work(Ok));
    var s2 := s1.(client := s1.client.(poll := true), worker := Connecting(false));
    Extend(timeouts, s2, Work(Ok));
    ServeReaches(timeouts, s2);
    var s5 := Served(s2);
    Extend(timeouts, s5, Work(FailBefore));
    Extend(timeouts, s5.(worker := GivingBack), Work(Ok));
    assert Apply(s5.(worker := GivingBack), Work(Ok)) == Retrying(timeouts);
  }

  /** While no connection is accepted, every step of every thread keeps the state stuck. */
  lemma StuckIsClosed(s: State, a: Action)
    requires Stuck(s) && Enabled(s, a)
    requires a.Work? ==> !a.outcome.Ok?
    ensures Stuck(Apply(s, a)) && Apply(s, a).main == s.main
  {
  }
}
