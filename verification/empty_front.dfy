/** When front() can meet an empty queue: exactly when stop() stores false into
    poll_requests_ before the worker has stored true. */
module EmptyFront {
  import opened DeliveryMachine
  import opened DeliveryInvariant
  import opened DeliveryExecutors
  import opened Delivery
  import opened DeliveryWitnesses

  /** The worker calls front() on an empty queue. */
  predicate FrontOfNothing(s: State) {
    s.worker.Serving? && s.client.queue == []
  }

  // ---------- before the worker's store ----------

  /** Until the worker stores true, there has been no connection. */
  ghost predicate Unconnected(s: State) {
    !HasStored(s.worker) ==> s.server.sessions == [] && s.past.handled == []
  }

  lemma UnconnectedStep(s: State, a: Action)
    requires Layout(s) && Unconnected(s) && Enabled(s, a)
    ensures Unconnected(Apply(s, a))
  {
  }

  lemma {:induction false} UnconnectedRun(s: State, actions: seq<Action>)
    requires Safe(s) && Unconnected(s) && IsRun(s, actions)
    ensures Safe(Exec(s, actions)) && Unconnected(Exec(s, actions))
    decreases |actions|
  {
    if |actions| > 0 {
      SafeStep(s, actions[0]);
      UnconnectedStep(s, actions[0]);
      UnconnectedRun(Apply(s, actions[0]), actions[1..]);
    }
  }

  lemma EarlyStopTokens(s: State)
    requires Safe(s) && Unconnected(s) && s.main.StorePoll? && s.worker.Storing?
    ensures s.client.sem == |s.client.queue| && !s.client.locked && s.server.sessions == []
  {
    forall j | 0 <= j < |s.producers| ensures !s.producers[j].pc.Releasing? {
      assert s.producers[j].kind.Executor? ==> Started(s.producers[j].kind.id, s.past.handled);
    }
    NoReleasing(s.producers);
  }

  // ---------- the worker drains the queue, and has one token too many ----------

  /** The worker at the head of its loop, with a token more than there are requests. */
  predicate Draining(s: State) {
    && s.worker.Testing? && s.client.poll && !s.client.locked && s.client.sem == |s.client.queue| + 1
    && |s.server.sessions| > 0 && Reply(s) == []
  }

  /** The same state with the worker at front(). */
  function AtFront(s: State): State
    requires s.client.sem > 0
  {
    s.(client := s.client.(sem := s.client.sem - 1, locked := true), worker := Serving)
  }

  lemma FrontReached(from: State, s: State)
    requires ReachableFrom(from, s) && Draining(s)
    ensures ReachableFrom(from, AtFront(s))
  {
    Onto(from, s, Work(Ok));
    Onto(from, s.(worker := Acquiring), Work(Ok));
    var s1 := s.(client := s.client.(sem := s.client.sem - 1), worker := Acquired);
    Onto(from, s1, Work(Ok));
    Onto(from, s1.(worker := Locking), Work(Ok));
  }

  /** The head is served, with an empty reply, and popped. */
  lemma HeadServed(from: State, s: State) returns (s': State)
    requires ReachableFrom(from, s) && s.worker.Serving? && s.client.poll && |s.client.queue| > 0
    requires |s.server.sessions| > 0 && Reply(s) == [] && s.client.sem == |s.client.queue|
    ensures ReachableFrom(from, s') && Draining(s') && |s'.client.queue| == |s.client.queue| - 1
  {
    Onto(from, s, Work(Ok));
    s' := Apply(s, Work(Ok));
    if s'.worker.Handling? {
      Onto(from, s', Work(Ok));
      s' := Apply(s', Work(Ok));
    }
    Onto(from, s', Work(Ok));
    s' := Apply(s', Work(Ok));
  }

  lemma {:induction false} Drains(from: State, s: State)
    requires ReachableFrom(from, s) && Draining(s)
    ensures exists s' :: ReachableFrom(from, s') && FrontOfNothing(s')
    decreases |s.client.queue|
  {
    FrontReached(from, s);
    if s.client.queue == [] {
      assert FrontOfNothing(AtFront(s));
    } else {
      var s' := HeadServed(from, AtFront(s));
      Drains(from, s');
    }
  }

  /** From the early store of false: the stop token, the worker's store, a connection. */
  lemma EarlyStopDrains(s: State) returns (s': State)
    requires s.main.ReleaseStop? && s.worker.Storing? && !s.client.locked && s.client.sem == |s.client.queue|
    ensures ReachableFrom(s, s') && Draining(s')
  {
    Stay(s);
    Onto(s, s, Main);
    var s1 := s.(client := s.client.(sem := s.client.sem + 1), main := JoinWorker);
    Onto(s, s1, Work(Ok));
    var s2 := s1.(client := s1.client.(poll := true), worker := Connecting(false));
    Onto(s, s2, Work(Ok));
    var s3 := s2.(server := s2.server.(sessions := s2.server.sessions + [Session([], [], [])]), worker := Opened(false));
    Onto(s, s3, Work(Ok));
    Onto(s, s3.(worker := Greeting(false)), Work(Ok));
    s' := s3.(worker := Testing);
  }

  // ---------- after the worker's store ----------

  /** stop() stores once: after it, every run is ordered. */
  lemma {:induction false} StoresOnce(s: State, actions: seq<Action>)
    requires IsRun(s, actions) && PollStored(s.main)
    ensures PollStored(Exec(s, actions).main) && IsOrderedRun(s, actions)
    decreases |actions|
  {
    if |actions| > 0 {
      StoredStep(s, actions[0]);
      StoresOnce(Apply(s, actions[0]), actions[1..]);
    }
  }

  lemma StoredStep(s: State, a: Action)
    requires Enabled(s, a) && PollStored(s.main)
    ensures PollStored(Apply(s, a).main) && Ordered(s, a)
  {
  }

  /** Up to that store, every run is ordered. */
  lemma {:induction false} OrderedSoFar(s: State, actions: seq<Action>)
    requires IsRun(s, actions) && !PollStored(Exec(s, actions).main)
    ensures IsOrderedRun(s, actions)
    decreases |actions|
  {
    if |actions| > 0 {
      if !Ordered(s, actions[0]) {
        StoresOnce(Apply(s, actions[0]), actions[1..]);
      }
      OrderedSoFar(Apply(s, actions[0]), actions[1..]);
    }
  }

  // ---------- the exact condition ----------

  /** At the moment when stop() stores false: front() of an empty queue is ahead, for
      some schedule, exactly if the worker has not stored true yet. */
  lemma EmptyFrontExact(timeouts: seq<nat>, s: State)
    requires Reachable(timeouts, s) && s.main.StorePoll? && Enabled(s, Main)
    ensures (exists s' :: ReachableFrom(Apply(s, Main), s') && FrontOfNothing(s')) <==> s.worker.Storing?
  {
    if s.worker.Storing? {
      EarlyStopIsUnsafe(timeouts, s);
    } else {
      PolledBefore(timeouts, s);
      LateStopIsSafe(s);
    }
  }

  lemma EarlyStopIsUnsafe(timeouts: seq<nat>, s: State)
    requires Reachable(timeouts, s) && s.main.StorePoll? && s.worker.Storing? && Enabled(s, Main)
    ensures exists s' :: ReachableFrom(Apply(s, Main), s') && FrontOfNothing(s')
  {
    var actions :| IsRun(Init(timeouts), actions) && Exec(Init(timeouts), actions) == s;
    SafeInit(timeouts);
    UnconnectedRun(Init(timeouts), actions);
    EarlyStopTokens(s);
    var s1 := EarlyStopDrains(Apply(s, Main));
    Drains(Apply(s, Main), s1);
  }

  lemma PolledBefore(timeouts: seq<nat>, s: State)
    requires Reachable(timeouts, s) && !PollStored(s.main)
    ensures Safe(s) && PollOrder(s)
  {
    var actions :| IsRun(Init(timeouts), actions) && Exec(Init(timeouts), actions) == s;
    SafeInit(timeouts);
    OrderedSoFar(Init(timeouts), actions);
    OrderedRun(Init(timeouts), actions);
  }

  lemma LateStopIsSafe(s: State)
    requires Safe(s) && PollOrder(s) && s.main.StorePoll? && !s.worker.Storing? && Enabled(s, Main)
    ensures forall s' :: ReachableFrom(Apply(s, Main), s') ==> !FrontOfNothing(s')
  {
    SafeStep(s, Main);
    PollStep(s, Main);
    forall s' | ReachableFrom(Apply(s, Main), s') ensures !FrontOfNothing(s') {
      OrderedOnward(Apply(s, Main), s');
    }
  }

  lemma OrderedOnward(s: State, s': State)
    requires Safe(s) && PollOrder(s) && PollStored(s.main) && ReachableFrom(s, s')
    ensures !FrontOfNothing(s')
  {
    var actions :| IsRun(s, actions) && Exec(s, actions) == s';
    StoresOnce(s, actions);
    OrderedRun(s, actions);
  }
}
