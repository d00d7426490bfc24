/** Infinite runs of the delivery protocol, and what fair scheduling means. */
module Traces {
  import opened DeliveryMachine
  import opened Delivery

  datatype Thread = MainThread | WorkerThread | ProducerThread(i: nat)

  predicate By(a: Action, t: Thread) {
    match t
    case MainThread => a.Main?
    case WorkerThread => a.Work?
    case ProducerThread(i) => a.Produce? && a.i == i
  }

  ghost predicate ThreadEnabled(s: State, t: Thread) {
    exists a :: By(a, t) && Enabled(s, a)
  }

  /** An infinite run: step n takes action(n) in state(n). */
  datatype Trace = Trace(state: nat -> State, action: nat -> Action)

  ghost predicate StepAt(tr: Trace, n: nat) {
    && Enabled(tr.state(n), tr.action(n)) && Ordered(tr.state(n), tr.action(n))
    && tr.state(n + 1) == Apply(tr.state(n), tr.action(n))
  }

  ghost predicate IsTrace(tr: Trace, timeouts: seq<nat>) {
    tr.state(0) == Init(timeouts) && forall n: nat :: StepAt(tr, n)
  }

  ghost predicate EnabledLater(tr: Trace, t: Thread, n: nat) {
    exists m: nat :: m >= n && ThreadEnabled(tr.state(m), t)
  }

  ghost predicate StepsLater(tr: Trace, t: Thread, n: nat) {
    exists m: nat :: m >= n && By(tr.action(m), t)
  }

  /** A thread that can step again and again does step again and again. */
  ghost predicate FairTo(tr: Trace, t: Thread) {
    (forall n: nat :: EnabledLater(tr, t, n)) ==> (forall n: nat :: StepsLater(tr, t, n))
  }

  ghost predicate Fair(tr: Trace) {
    forall t: Thread :: FairTo(tr, t)
  }

  /** From n0 on no handshake and no sendSysInfo throws. Connections and reports may
      fail, some of them or all. */
  ghost predicate NothingThrows(tr: Trace, n0: nat) {
    forall m: nat :: m >= n0 && tr.action(m).Work? && (tr.state(m).worker.Greeting? || tr.state(m).worker.Handling?)
      ==> tr.action(m).outcome.Ok?
  }

  // ---------- what holds at every position ----------

  lemma {:induction false} HoldsAt(tr: Trace, timeouts: seq<nat>, n: nat)
    requires IsTrace(tr, timeouts)
    ensures Safe(tr.state(n)) && PollOrder(tr.state(n)) && tr.state(n).consumers == |timeouts|
  {
    if n == 0 {
      SafeInit(timeouts);
    } else {
      HoldsAt(tr, timeouts, n - 1);
      assert StepAt(tr, n - 1);
      SafeStep(tr.state(n - 1), tr.action(n - 1));
      PollStep(tr.state(n - 1), tr.action(n - 1));
      ConsumersFixed(tr.state(n - 1), tr.action(n - 1));
    }
  }

  lemma ConsumersFixed(s: State, a: Action)
    requires Enabled(s, a)
    ensures Apply(s, a).consumers == s.consumers
  {
  }

  // ---------- fairness ----------

  lemma EnabledAlways(tr: Trace, t: Thread, n: nat)
    requires forall m: nat :: m >= n ==> EnabledLater(tr, t, m)
    ensures forall m: nat :: EnabledLater(tr, t, m)
  {
    forall m: nat ensures EnabledLater(tr, t, m) {
      if m < n {
        assert EnabledLater(tr, t, n);
      }
    }
  }

  /** If not stepping would leave t enabled again and again, t steps. */
  lemma Fairly(tr: Trace, t: Thread, n: nat)
    requires Fair(tr)
    requires !StepsLater(tr, t, n) ==> forall m: nat :: m >= n ==> EnabledLater(tr, t, m)
    ensures StepsLater(tr, t, n)
  {
    assert FairTo(tr, t);
    if forall m: nat :: m >= n ==> EnabledLater(tr, t, m) {
      EnabledAlways(tr, t, n);
    }
  }

  lemma {:induction false} FirstStep(tr: Trace, t: Thread, n: nat, m: nat) returns (k: nat)
    requires n <= m && By(tr.action(m), t)
    ensures n <= k <= m && By(tr.action(k), t) && forall j: nat :: n <= j < k ==> !By(tr.action(j), t)
    decreases m - n
  {
    if By(tr.action(n), t) {
      k := n;
    } else {
      k := FirstStep(tr, t, n + 1, m);
    }
  }

  lemma NextStep(tr: Trace, t: Thread, n: nat) returns (k: nat)
    requires StepsLater(tr, t, n)
    ensures n <= k && By(tr.action(k), t) && forall j: nat :: n <= j < k ==> !By(tr.action(j), t)
  {
    var m: nat :| m >= n && By(tr.action(m), t);
    k := FirstStep(tr, t, n, m);
  }

  /** The order of ranks. */
  predicate Less(a: (nat, nat), b: (nat, nat)) {
    a.0 < b.0 || (a.0 == b.0 && a.1 < b.1)
  }
}
