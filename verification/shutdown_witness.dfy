/** The hypotheses of Shutdown.StopTerminates can be met, for every number of
    consumers: a fair run with a reachable server in which stop() is called. And both
    sides of Shutdown.StopReturnsExact occur: a fair run that ends in the deadlock. */
module ShutdownWitness {
  import opened Wire
  import opened DeliveryMachine
  import opened DeliveryWitnesses
  import opened EmptyFront
  import opened Traces
  import opened Shutdown

  /** All actions can be taken, in the order that StopTerminates asks for, and
      whatever the worker tries succeeds. */
  predicate Smooth(s: State, actions: seq<Action>)
    decreases |actions|
  {
    |actions| > 0 ==>
      && Enabled(s, actions[0]) && Ordered(s, actions[0]) && (actions[0].Work? ==> actions[0].outcome.Ok?)
      && Smooth(Apply(s, actions[0]), actions[1..])
  }

  /** The state after n actions; the last one from there on. */
  function At(s: State, actions: seq<Action>, n: nat): State
    requires Smooth(s, actions)
    decreases |actions|
  {
    if n == 0 || |actions| == 0 then s else At(Apply(s, actions[0]), actions[1..], n - 1)
  }

  function End(s: State, actions: seq<Action>): State
    requires Smooth(s, actions)
  {
    At(s, actions, |actions|)
  }

  lemma {:induction false} SmoothAppend(s: State, actions: seq<Action>, a: Action)
    requires Smooth(s, actions) && Enabled(End(s, actions), a) && Ordered(End(s, actions), a)
    requires a.Work? ==> a.outcome.Ok?
    ensures Smooth(s, actions + [a]) && End(s, actions + [a]) == Apply(End(s, actions), a)
    decreases |actions|
  {
    if |actions| == 0 {
      assert actions + [a] == [a];
      assert End(s, [a]) == At(Apply(s, a), [a][1..], 0);
    } else {
      assert (actions + [a])[0] == actions[0] && (actions + [a])[1..] == actions[1..] + [a];
      SmoothAppend(Apply(s, actions[0]), actions[1..], a);
    }
  }

  lemma {:induction false} SmoothConcat(s: State, a: seq<Action>, b: seq<Action>)
    requires Smooth(s, a) && Smooth(End(s, a), b)
    ensures Smooth(s, a + b) && End(s, a + b) == End(End(s, a), b) && At(s, a + b, |a|) == End(s, a)
    decreases |a|
  {
    if |a| == 0 {
      assert a + b == b;
    } else {
      assert (a + b)[0] == a[0] && (a + b)[1..] == a[1..] + b;
      SmoothConcat(Apply(s, a[0]), a[1..], b);
    }
  }

  ghost predicate Leads(s: State, s': State) {
    exists actions :: Smooth(s, actions) && End(s, actions) == s'
  }

  lemma Onward(s: State, s': State, a: Action)
    requires Leads(s, s') && Enabled(s', a) && Ordered(s', a) && (a.Work? ==> a.outcome.Ok?)
    ensures Leads(s, Apply(s', a))
  {
    var actions :| Smooth(s, actions) && End(s, actions) == s';
    SmoothAppend(s, actions, a);
  }

  // ---------- a run to the call of stop(), and from there to its return ----------

  lemma {:induction false} StartsConsumers(timeouts: seq<nat>, k: nat)
    requires k <= |timeouts|
    ensures Leads(Init(timeouts), Init(timeouts).(producers := Looped(timeouts, k), main := Starting(k)))
  {
    if k == 0 {
      assert Looped(timeouts, 0) == Init(timeouts).producers;
      assert Smooth(Init(timeouts), []) && End(Init(timeouts), []) == Init(timeouts);
    } else {
      StartsConsumers(timeouts, k - 1);
      var s := Init(timeouts).(producers := Looped(timeouts, k - 1), main := Starting(k - 1));
      Onward(Init(timeouts), s, Main);
      assert Apply(s, Main).producers == Looped(timeouts, k);
    }
  }

  /** The worker is connected and waits for a token. */
  function Waiting(timeouts: seq<nat>): State {
    var s := Launched(timeouts);
    s.(worker := Acquiring, client := s.client.(poll := true), server := s.server.(sessions := [Session([], [], [])]))
  }

  lemma WaitsForToken(timeouts: seq<nat>)
    ensures Leads(Init(timeouts), Waiting(timeouts))
  {
    var i := Init(timeouts);
    StartsConsumers(timeouts, |timeouts|);
    Onward(i, i.(producers := Looped(timeouts, |timeouts|), main := Starting(|timeouts|)), Main);
    var s := Launched(timeouts);
    Onward(i, s, Work(Ok));
    var s1 := s.(client := s.client.(poll := true), worker := Connecting(false));
    Onward(i, s1, Work(Ok));
    var s2 := s1.(server := Waiting(timeouts).server, worker := Opened(false));
    Onward(i, s2, Work(Ok));
    Onward(i, s2.(worker := Greeting(false)), Work(Ok));
    Onward(i, s2.(worker := Testing), Work(Ok));
  }

  /** stop() is called in this state. */
  function Called(timeouts: seq<nat>): State {
    Waiting(timeouts).(main := Stopping(0))
  }

  lemma CallsStop(timeouts: seq<nat>)
    ensures Leads(Init(timeouts), Called(timeouts))
  {
    WaitsForToken(timeouts);
    Onward(Init(timeouts), Waiting(timeouts), Signal);
  }

  lemma {:induction false} JoinsConsumers(timeouts: seq<nat>, k: nat)
    requires k <= |timeouts|
    ensures Leads(Called(timeouts), Called(timeouts).(producers := Stopped(timeouts, k), main := Stopping(k)))
  {
    var c := Called(timeouts);
    if k == 0 {
      assert Stopped(timeouts, 0) == c.producers;
      assert Smooth(c, []) && End(c, []) == c;
    } else {
      JoinsConsumers(timeouts, k - 1);
      var s := c.(producers := Stopped(timeouts, k - 1), main := Stopping(k - 1));
      Onward(c, s, Main);
      var s1 := Apply(s, Main);
      var exit := Produce(k - 1, KTcp, RmsRequest(0, []));
      Onward(c, s1, exit);
      var s2 := Apply(s1, exit);
      Onward(c, s2, Main);
      assert s2.producers == Stopped(timeouts, k);
    }
  }

  function Over(timeouts: seq<nat>): State {
    var s := Called(timeouts);
    s.(producers := Stopped(timeouts, |timeouts|), main := Done, worker := Finished(true), client := s.client.(poll := false))
  }

  lemma Returns(timeouts: seq<nat>)
    ensures Leads(Called(timeouts), Over(timeouts))
  {
    var c, n := Called(timeouts), |timeouts|;
    JoinsConsumers(timeouts, n);
    var s := c.(producers := Stopped(timeouts, n), main := Stopping(n));
    Onward(c, s, Main);
    Onward(c, s.(main := StorePoll), Main);
    var s1 := s.(main := ReleaseStop, client := s.client.(poll := false));
    Onward(c, s1, Main);
    Onward(c, s1.(main := JoinWorker, client := s1.client.(sem := 1)), Work(Ok));
    Onward(c, s1.(main := JoinWorker, worker := Acquired), Work(Ok));
    Onward(c, s1.(main := JoinWorker, worker := Finished(true)), Main);
    Onward(c, s1.(main := Closing, worker := Finished(true)), Main);
  }

  // ---------- the infinite run ----------

  /** The actions, then idling. */
  ghost function TraceOf(s: State, actions: seq<Action>): Trace
    requires Smooth(s, actions)
  {
    Trace((n: nat) => At(s, actions, n), (n: nat) => if n < |actions| then actions[n] else Idle)
  }

  lemma {:induction false} AtStep(s: State, actions: seq<Action>, n: nat)
    requires Smooth(s, actions)
    ensures n < |actions| ==>
              && Enabled(At(s, actions, n), actions[n]) && Ordered(At(s, actions, n), actions[n])
              && (actions[n].Work? ==> actions[n].outcome.Ok?)
              && At(s, actions, n + 1) == Apply(At(s, actions, n), actions[n])
    ensures n >= |actions| ==> At(s, actions, n) == End(s, actions)
    decreases |actions|
  {
    if |actions| > 0 && n > 0 {
      AtStep(Apply(s, actions[0]), actions[1..], n - 1);
    } else if |actions| > 0 {
      assert At(Apply(s, actions[0]), actions[1..], 0) == Apply(s, actions[0]);
    }
  }

  lemma NobodyLeft(timeouts: seq<nat>, t: Thread)
    ensures !ThreadEnabled(Over(timeouts), t)
  {
  }

  lemma FairStopExists(timeouts: seq<nat>)
    ensures exists tr, n0 :: Stops(tr, timeouts, n0) && ServerReachable(tr, n0)
  {
    var i, c := Init(timeouts), Called(timeouts);
    CallsStop(timeouts);
    Returns(timeouts);
    var a :| Smooth(i, a) && End(i, a) == c;
    var b :| Smooth(c, b) && End(c, b) == Over(timeouts);
    SmoothConcat(i, a, b);
    var actions := a + b;
    var tr := TraceOf(i, actions);
    forall n: nat ensures StepAt(tr, n) && (tr.action(n).Work? ==> tr.action(n).outcome.Ok?) {
      AtStep(i, actions, n);
      AtStep(i, actions, n + 1);
    }
    forall t: Thread ensures FairTo(tr, t) {
      NobodyLeft(timeouts, t);
      assert !EnabledLater(tr, t, |actions|) by {
        forall m: nat | m >= |actions| ensures !ThreadEnabled(tr.state(m), t) {
          AtStep(i, actions, m);
        }
      }
    }
    assert tr.state(|a|) == c;
    assert Stops(tr, timeouts, |a|) && ServerReachable(tr, |a|);
  }

  // ---------- a fair run into the deadlock ----------

  /** In the deadlock, the first k consumers wait for mtx_. */
  function Frozen(timeouts: seq<nat>, k: nat): seq<Producer>
    requires |timeouts| >= 1
  {
    var ps := Deadlocked(timeouts).producers;
    seq(|ps|, j requires 0 <= j < |ps| => if 0 < j < k then ps[j].(pc := Sending(KTcp, PING)) else ps[j])
  }

  function Standstill(timeouts: seq<nat>): State
    requires |timeouts| >= 1
  {
    Deadlocked(timeouts).(producers := Frozen(timeouts, |timeouts|))
  }

  lemma {:induction false} StandstillReaches(timeouts: seq<nat>, k: nat)
    requires 1 <= k <= |timeouts|
    ensures Reachable(timeouts, Deadlocked(timeouts).(producers := Frozen(timeouts, k)))
    decreases k
  {
    var s := Deadlocked(timeouts);
    if k == 1 {
      StuckReachable(timeouts);
      assert Frozen(timeouts, 1) == s.producers;
    } else {
      StandstillReaches(timeouts, k - 1);
      var s1 := s.(producers := Frozen(timeouts, k - 1));
      Extend(timeouts, s1, Produce(k - 1, KTcp, PING));
      assert Apply(s1, Produce(k - 1, KTcp, PING)).producers == Frozen(timeouts, k);
    }
  }

  /** Nobody but the worker can step. */
  lemma AllWait(timeouts: seq<nat>, t: Thread)
    requires |timeouts| >= 1 && !t.WorkerThread?
    ensures !ThreadEnabled(Standstill(timeouts), t) && Stuck(Standstill(timeouts))
  {
  }

  /** The actions, then connections that fail. */
  ghost function DeadlockTrace(timeouts: seq<nat>, actions: seq<Action>): Trace
    requires |timeouts| >= 1 && IsRun(Init(timeouts), actions)
  {
    Trace((n: nat) => if n <= |actions| then StateAfter(Init(timeouts), actions, n) else Standstill(timeouts),
          (n: nat) => if n < |actions| then actions[n] else Work(FailBefore))
  }

  function StateAfter(s: State, actions: seq<Action>, n: nat): State
    requires IsRun(s, actions) && n <= |actions|
    decreases |actions|
  {
    if n == 0 then s else StateAfter(Apply(s, actions[0]), actions[1..], n - 1)
  }

  lemma {:induction false} StateAfterStep(s: State, actions: seq<Action>, n: nat)
    requires IsRun(s, actions) && IsOrderedRun(s, actions) && n <= |actions|
    ensures n == |actions| ==> StateAfter(s, actions, n) == Exec(s, actions)
    ensures n < |actions| ==>
              && Enabled(StateAfter(s, actions, n), actions[n]) && Ordered(StateAfter(s, actions, n), actions[n])
              && StateAfter(s, actions, n + 1) == Apply(StateAfter(s, actions, n), actions[n])
    decreases |actions|
  {
    if n > 0 {
      StateAfterStep(Apply(s, actions[0]), actions[1..], n - 1);
    } else if |actions| > 0 {
      assert StateAfter(Apply(s, actions[0]), actions[1..], 0) == Apply(s, actions[0]);
    }
  }

  lemma ReconnectionFails(timeouts: seq<nat>)
    requires |timeouts| >= 1
    ensures Enabled(Standstill(timeouts), Work(FailBefore)) && Apply(Standstill(timeouts), Work(FailBefore)) == Standstill(timeouts)
  {
  }

  lemma DeadlockStep(timeouts: seq<nat>, actions: seq<Action>, n: nat)
    requires |timeouts| >= 1 && IsRun(Init(timeouts), actions) && IsOrderedRun(Init(timeouts), actions) && Exec(Init(timeouts), actions) == Standstill(timeouts)
    ensures StepAt(DeadlockTrace(timeouts, actions), n)
    ensures n >= |actions| ==> DeadlockTrace(timeouts, actions).state(n) == Standstill(timeouts)
  {
    if n <= |actions| {
      StateAfterStep(Init(timeouts), actions, n);
    }
    if n >= |actions| {
      ReconnectionFails(timeouts);
    }
  }

  /** In the deadlock only the worker can step, and it does. */
  lemma DeadlockFair(timeouts: seq<nat>, actions: seq<Action>, t: Thread)
    requires |timeouts| >= 1 && IsRun(Init(timeouts), actions) && IsOrderedRun(Init(timeouts), actions) && Exec(Init(timeouts), actions) == Standstill(timeouts)
    ensures FairTo(DeadlockTrace(timeouts, actions), t)
  {
    var tr := DeadlockTrace(timeouts, actions);
    if t.WorkerThread? {
      forall n: nat ensures StepsLater(tr, t, n) {
        assert By(tr.action(n + |actions|), t);
      }
    } else {
      forall m: nat | m >= |actions| ensures !ThreadEnabled(tr.state(m), t) {
        DeadlockStep(timeouts, actions, m);
        AllWait(timeouts, t);
      }
      assert !EnabledLater(tr, t, |actions|);
    }
  }

  lemma DeadlockStops(timeouts: seq<nat>, actions: seq<Action>)
    requires |timeouts| >= 1 && IsRun(Init(timeouts), actions) && IsOrderedRun(Init(timeouts), actions) && Exec(Init(timeouts), actions) == Standstill(timeouts)
    ensures Stops(DeadlockTrace(timeouts, actions), timeouts, |actions|)
  {
    var tr := DeadlockTrace(timeouts, actions);
    forall n: nat ensures StepAt(tr, n) {
      DeadlockStep(timeouts, actions, n);
    }
    forall t: Thread ensures FairTo(tr, t) {
      DeadlockFair(timeouts, actions, t);
    }
    forall n: nat | n >= |actions| ensures tr.state(n) == Standstill(timeouts) {
      DeadlockStep(timeouts, actions, n);
    }
  }

  lemma DeadlockStays(timeouts: seq<nat>, actions: seq<Action>)
    requires |timeouts| >= 1 && IsRun(Init(timeouts), actions) && IsOrderedRun(Init(timeouts), actions) && Exec(Init(timeouts), actions) == Standstill(timeouts)
    ensures StuckForGood(DeadlockTrace(timeouts, actions), |actions|)
  {
    AllWait(timeouts, MainThread);
    forall n: nat | n >= |actions| ensures Stuck(DeadlockTrace(timeouts, actions).state(n)) {
      DeadlockStep(timeouts, actions, n);
    }
  }

  /** Every number of consumers, but none, can run into the deadlock. */
  lemma FairDeadlockExists(timeouts: seq<nat>)
    requires |timeouts| >= 1
    ensures exists tr, n0 :: Stops(tr, timeouts, n0) && StuckForGood(tr, n0)
  {
    StandstillReaches(timeouts, |timeouts|);
    var actions :| IsRun(Init(timeouts), actions) && Exec(Init(timeouts), actions) == Standstill(timeouts);
    assert Standstill(timeouts).main == Joining(0);
    OrderedSoFar(Init(timeouts), actions);
    DeadlockStops(timeouts, actions);
    DeadlockStays(timeouts, actions);
  }
}
