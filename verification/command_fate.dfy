/** What becomes of a response that the server puts into a session's queue: exactly when
    the reporter handles it, and the two ways in which it is lost. */
module CommandFate {
  import opened DeliveryMachine
  import opened DeliveryInvariant
  import opened DeliveryCommands
  import opened Delivery
  import opened DeliveryWitnesses
  import opened EmptyFront
  import opened Traces
  import opened DeliveryLiveness

  // ---------- where a response can be ----------

  /** It waits in the queue of its session. */
  predicate Waits(s: State, e: Issued) {
    e.session < |s.server.sessions| && e in s.server.sessions[e.session].queue
  }

  /** The worker is going to send its next report to the newest session. */
  predicate InSession(s: State) {
    var w := s.worker;
    || w.Locking? || w.Serving? || w.Handling? || w.Popping?
    || (s.client.poll && (w.Opened? || w.Greeting? || w.PostRetry? || w.Testing? || w.Acquiring? || w.Acquired?))
  }

  /** It waits in the session that the next report drains. */
  predicate Expected(s: State, e: Issued) {
    Waits(s, e) && e.session + 1 == |s.server.sessions| && InSession(s)
  }

  /** It waits in a session that no report drains any more. */
  predicate Left(s: State, e: Issued) {
    Waits(s, e) && !(e.session + 1 == |s.server.sessions| && InSession(s))
  }

  /** It was left behind, or lost with a reply. */
  predicate Gone(s: State, e: Issued) {
    Left(s, e) || e in s.past.lost
  }

  /** The worker has it in hand, or has handled it. */
  predicate Arrived(s: State, e: Issued) {
    e in Rest(s.worker) || e in s.past.handled
  }

  // ---------- the invariant: what waits was not drained ----------

  ghost predicate QueuesApart(s: State) {
    forall k, e :: 0 <= k < |s.server.sessions| && e in s.server.sessions[k].queue ==> e !in s.server.drained && e.session == k
  }

  ghost predicate Sound(s: State) {
    Safe(s) && Unconnected(s) && QueuesApart(s)
  }

  lemma SoundInit(timeouts: seq<nat>)
    ensures Sound(Init(timeouts))
  {
    SafeInit(timeouts);
  }

  lemma SoundStep(s: State, a: Action)
    requires Sound(s) && Enabled(s, a)
    ensures Sound(Apply(s, a))
  {
    SafeStep(s, a);
    UnconnectedStep(s, a);
    ApartStep(s, a);
  }

  lemma ApartStep(s: State, a: Action)
    requires QueuesApart(s) && CommandsFlow(s) && Enabled(s, a)
    ensures QueuesApart(Apply(s, a))
  {
    match a
    case Issue(sid, ask) => ApartIssue(s, sid, ask);
    case Work(outcome) => ApartWorker(s, outcome);
    case _ => assert Apply(s, a).server == s.server;
  }

  lemma ApartIssue(s: State, sid: nat, ask: Ask)
    requires QueuesApart(s) && CommandsFlow(s) && sid < |s.server.sessions|
    ensures QueuesApart(ApplyIssue(s, sid, ask))
  {
    var fresh' := ApplyIssue(s, sid, ask).server.issued[|s.server.issued|];
    forall i | 0 <= i < |s.server.drained| ensures s.server.drained[i] != fresh' {
      assert (s.server.drained + Current(s.server.sessions))[i] == s.server.drained[i];
    }
  }

  lemma ApartWorker(s: State, outcome: Outcome)
    requires QueuesApart(s) && WorkerEnabled(s)
    ensures QueuesApart(ApplyWorker(s, outcome))
  {
    if s.worker.Serving? {
      ApartServing(s, outcome);
    } else if !s.worker.Connecting? {
      assert ApplyWorker(s, outcome).server == s.server;
    }
  }

  lemma ApartServing(s: State, outcome: Outcome)
    requires QueuesApart(s) && |s.client.queue| > 0 && |s.server.sessions| > 0
    ensures QueuesApart(ApplyServing(s, outcome))
  {
    assert forall e <- Reply(s) :: e.session == |s.server.sessions| - 1;
  }

  lemma {:induction false} SoundRun(s: State, actions: seq<Action>)
    requires Sound(s) && IsRun(s, actions)
    ensures Sound(Exec(s, actions))
    decreases |actions|
  {
    if |actions| > 0 {
      SoundStep(s, actions[0]);
      SoundRun(Apply(s, actions[0]), actions[1..]);
    }
  }

  lemma {:induction false} SoundAt(tr: Trace, timeouts: seq<nat>, n: nat)
    requires IsTrace(tr, timeouts)
    ensures Sound(tr.state(n))
  {
    if n == 0 {
      SoundInit(timeouts);
    } else {
      SoundAt(tr, timeouts, n - 1);
      assert StepAt(tr, n - 1);
      SoundStep(tr.state(n - 1), tr.action(n - 1));
    }
  }

  // ---------- what is gone stays gone ----------

  lemma LeftStep(s: State, a: Action, e: Issued)
    requires MutexHeld(s) && Unconnected(s) && Enabled(s, a) && Left(s, e)
    ensures Left(Apply(s, a), e)
  {
  }

  lemma LostStep(s: State, a: Action, e: Issued)
    requires Enabled(s, a) && e in s.past.lost
    ensures e in Apply(s, a).past.lost
  {
  }

  lemma GoneStep(s: State, a: Action, e: Issued)
    requires Sound(s) && Enabled(s, a) && Gone(s, e)
    ensures Gone(Apply(s, a), e)
  {
    if Left(s, e) {
      LeftStep(s, a, e);
    } else {
      LostStep(s, a, e);
    }
  }

  lemma WaitingIsUnhandled(s: State, e: Issued)
    requires QueuesApart(s) && CommandsFlow(s) && Waits(s, e)
    ensures !Arrived(s, e) && e !in s.past.lost
  {
    assert e !in multiset(s.server.drained);
  }

  /** No response is drained twice, so what is lost is not handled. */
  lemma LostIsUnhandled(s: State, e: Issued)
    requires CommandsFlow(s) && e in s.past.lost
    ensures !Arrived(s, e)
  {
    var drained, current := s.server.drained, Current(s.server.sessions);
    forall i, j | 0 <= i < j < |drained| ensures drained[i] != drained[j] {
      assert (drained + current)[i].no < (drained + current)[j].no;
    }
    DistinctOnce(drained, e);
    assert multiset(drained)[e] == multiset(s.past.handled)[e] + multiset(Rest(s.worker))[e] + multiset(s.past.lost)[e];
  }

  lemma {:induction false} DistinctOnce(es: seq<Issued>, e: Issued)
    requires forall i, j :: 0 <= i < j < |es| ==> es[i] != es[j]
    ensures multiset(es)[e] <= 1
    decreases |es|
  {
    if |es| > 0 {
      var front, last := es[..|es| - 1], es[|es| - 1];
      DistinctOnce(front, e);
      assert es == front + [last];
      assert last !in front;
    }
  }

  lemma GoneIsUnhandled(s: State, e: Issued)
    requires Sound(s) && Gone(s, e)
    ensures !Arrived(s, e)
  {
    if Left(s, e) {
      WaitingIsUnhandled(s, e);
    } else {
      LostIsUnhandled(s, e);
    }
  }

  /** In whatever way the run goes on, it is never handled. */
  lemma {:induction false} GoneForGood(s: State, actions: seq<Action>, e: Issued)
    requires Sound(s) && Gone(s, e) && IsRun(s, actions)
    ensures !Arrived(Exec(s, actions), e)
    decreases |actions|
  {
    if |actions| == 0 {
      GoneIsUnhandled(s, e);
    } else {
      SoundStep(s, actions[0]);
      GoneStep(s, actions[0], e);
      GoneForGood(Apply(s, actions[0]), actions[1..], e);
    }
  }

  lemma {:induction false} GoneAt(tr: Trace, timeouts: seq<nat>, n: nat, m: nat, e: Issued)
    requires IsTrace(tr, timeouts) && n <= m && Gone(tr.state(n), e)
    ensures Gone(tr.state(m), e) && !Arrived(tr.state(m), e)
  {
    if n < m {
      GoneAt(tr, timeouts, n, m - 1, e);
      SoundAt(tr, timeouts, m - 1);
      assert StepAt(tr, m - 1);
      GoneStep(tr.state(m - 1), tr.action(m - 1), e);
    }
    SoundAt(tr, timeouts, m);
    GoneIsUnhandled(tr.state(m), e);
  }

  // ---------- up to the next report, and from there ----------

  /** A call of report to the newest session. */
  predicate Reports(s: State, a: Action) {
    a.Work? && s.worker.Serving? && |s.client.queue| > 0 && s.client.queue[0].protocol.KTcp?
  }

  lemma ExpectedStep(s: State, a: Action, e: Issued)
    requires Enabled(s, a) && Expected(s, e) && s.client.poll && !Reports(s, a)
    requires |Apply(s, a).server.sessions| > 0 ==> Apply(s, a).client.poll
    requires a.Work? && (s.worker.Greeting? || s.worker.Handling?) ==> a.outcome.Ok?
    requires s.main.Starting? ==> s.worker.NotStarted?
    ensures Expected(Apply(s, a), e)
  {
  }

  /** The report takes what waits along if it is ingested, and the reply may be lost. */
  lemma ReportDecides(s: State, a: Action, e: Issued)
    requires Enabled(s, a) && Expected(s, e) && Reports(s, a)
    ensures a.outcome.Ok? ==> e in Rest(Apply(s, a).worker)
    ensures a.outcome.FailAfter? ==> e in Apply(s, a).past.lost
    ensures a.outcome.FailBefore? ==> Left(Apply(s, a), e)
  {
  }

  lemma ArrivedStep(s: State, a: Action, e: Issued)
    requires Enabled(s, a) && Arrived(s, e) && (a.Work? && s.worker.Handling? ==> a.outcome.Ok?)
    requires s.main.Starting? ==> s.worker.NotStarted?
    ensures Arrived(Apply(s, a), e)
  {
  }

  lemma {:induction false} StaysExpected(tr: Trace, timeouts: seq<nat>, n0: nat, n: nat, m: nat, e: Issued)
    requires Delivers(tr, timeouts, n0) && n0 <= n <= m && Expected(tr.state(n), e)
    requires forall k: nat :: n <= k < m ==> !Attempt(tr, k)
    ensures Expected(tr.state(m), e)
  {
    if n < m {
      StaysExpected(tr, timeouts, n0, n, m - 1, e);
      PollsIn(tr, timeouts, n0, m - 1);
      PollsIn(tr, timeouts, n0, m);
      ExpectedOneMore(tr, timeouts, n0, m - 1, e);
    }
  }

  lemma ExpectedOneMore(tr: Trace, timeouts: seq<nat>, n0: nat, m: nat, e: Issued)
    requires IsTrace(tr, timeouts) && NothingThrows(tr, n0) && m >= n0 && Expected(tr.state(m), e) && !Attempt(tr, m)
    requires tr.state(m).client.poll && (tr.state(m).main.Starting? ==> tr.state(m).worker.NotStarted?)
    requires |tr.state(m + 1).server.sessions| > 0 ==> tr.state(m + 1).client.poll
    ensures Expected(tr.state(m + 1), e)
  {
    assert StepAt(tr, m);
    ExpectedStep(tr.state(m), tr.action(m), e);
  }

  lemma PollsIn(tr: Trace, timeouts: seq<nat>, n0: nat, n: nat)
    requires Delivers(tr, timeouts, n0) && n >= n0
    ensures |tr.state(n).server.sessions| > 0 ==> tr.state(n).client.poll
    ensures MutexHeld(tr.state(n))
    ensures tr.state(n).main.Starting? ==> tr.state(n).worker.NotStarted?
  {
    SoundAt(tr, timeouts, n);
    HoldsAt(tr, timeouts, n);
  }

  lemma {:induction false} StaysArrived(tr: Trace, timeouts: seq<nat>, n0: nat, n: nat, m: nat, e: Issued)
    requires Delivers(tr, timeouts, n0) && n0 <= n <= m && Arrived(tr.state(n), e)
    ensures Arrived(tr.state(m), e)
  {
    if n < m {
      StaysArrived(tr, timeouts, n0, n, m - 1, e);
      PollsIn(tr, timeouts, n0, m - 1);
      assert StepAt(tr, m - 1);
      ArrivedStep(tr.state(m - 1), tr.action(m - 1), e);
    }
  }

  // ---------- the exact condition ----------

  /** The first call of report from n on. */
  ghost predicate FirstAttempt(tr: Trace, n: nat, a: nat) {
    a >= n && Attempt(tr, a) && forall k: nat :: n <= k < a ==> !Attempt(tr, k)
  }

  lemma {:induction false} SomeFirstAttempt(tr: Trace, n: nat, m: nat) returns (a: nat)
    requires n <= m && Attempt(tr, m)
    ensures FirstAttempt(tr, n, a) && a <= m
    decreases m - n
  {
    if Attempt(tr, n) {
      a := n;
    } else {
      a := SomeFirstAttempt(tr, n + 1, m);
    }
  }

  lemma OkIsHandled(tr: Trace, timeouts: seq<nat>, n0: nat, n: nat, a: nat, e: Issued) returns (k: nat)
    requires Delivers(tr, timeouts, n0) && n >= n0 && Expected(tr.state(n), e)
    requires FirstAttempt(tr, n, a) && tr.action(a).outcome.Ok?
    ensures k >= n && e in tr.state(k).past.handled
  {
    StaysExpected(tr, timeouts, n0, n, a, e);
    assert StepAt(tr, a);
    ReportDecides(tr.state(a), tr.action(a), e);
    SuccessIsHandled(tr.state(a));
    k := TryComes(tr, timeouts, n0, a + 1);
    StaysArrived(tr, timeouts, n0, a + 1, k, e);
  }

  lemma FailIsGone(tr: Trace, timeouts: seq<nat>, n0: nat, n: nat, a: nat, e: Issued)
    requires Delivers(tr, timeouts, n0) && n >= n0 && Expected(tr.state(n), e)
    requires FirstAttempt(tr, n, a) && !tr.action(a).outcome.Ok?
    ensures Gone(tr.state(a + 1), e)
  {
    StaysExpected(tr, timeouts, n0, n, a, e);
    assert StepAt(tr, a);
    ReportDecides(tr.state(a), tr.action(a), e);
  }

  lemma ExpectedIsUnhandled(tr: Trace, timeouts: seq<nat>, n0: nat, n: nat, m: nat, e: Issued)
    requires Delivers(tr, timeouts, n0) && n0 <= n <= m && Expected(tr.state(n), e)
    requires forall k: nat :: n <= k < m ==> !Attempt(tr, k)
    ensures e !in tr.state(m).past.handled
  {
    StaysExpected(tr, timeouts, n0, n, m, e);
    SoundAt(tr, timeouts, m);
    WaitingIsUnhandled(tr.state(m), e);
  }

  lemma UnhandledWithout(tr: Trace, timeouts: seq<nat>, n0: nat, n: nat, m: nat, e: Issued)
    requires Delivers(tr, timeouts, n0) && n0 <= n <= m && Waits(tr.state(n), e)
    requires Expected(tr.state(n), e) ==> forall a: nat :: FirstAttempt(tr, n, a) ==> !tr.action(a).outcome.Ok?
    ensures e !in tr.state(m).past.handled
  {
    if !Expected(tr.state(n), e) {
      GoneAt(tr, timeouts, n, m, e);
    } else if k: nat :| n <= k < m && Attempt(tr, k) {
      var a := SomeFirstAttempt(tr, n, k);
      FailIsGone(tr, timeouts, n0, n, a, e);
      GoneAt(tr, timeouts, a + 1, m, e);
    } else {
      ExpectedIsUnhandled(tr, timeouts, n0, n, m, e);
    }
  }

  /** A response that waits in some session is handled exactly if the worker still
      reports to that session, and its next call of report succeeds. */
  lemma HandledExactly(tr: Trace, timeouts: seq<nat>, n0: nat, n: nat, e: Issued)
    requires Delivers(tr, timeouts, n0) && n >= n0 && Waits(tr.state(n), e)
    ensures (exists m: nat :: m >= n && e in tr.state(m).past.handled) <==>
            Expected(tr.state(n), e) && exists a: nat :: FirstAttempt(tr, n, a) && tr.action(a).outcome.Ok?
  {
    if Expected(tr.state(n), e) && exists a: nat :: FirstAttempt(tr, n, a) && tr.action(a).outcome.Ok? {
      var a: nat :| FirstAttempt(tr, n, a) && tr.action(a).outcome.Ok?;
      var k := OkIsHandled(tr, timeouts, n0, n, a, e);
    } else {
      forall m: nat | m >= n ensures e !in tr.state(m).past.handled {
        UnhandledWithout(tr, timeouts, n0, n, m, e);
      }
    }
  }

  // ---------- runs in which no call fails ----------

  /** From n0 on no call fails, and there is always another report to come. */
  ghost predicate Calm(tr: Trace, timeouts: seq<nat>, n0: nat) {
    && Delivers(tr, timeouts, n0) && InSession(tr.state(n0))
    && (forall m: nat :: m >= n0 && tr.action(m).Work? ==> tr.action(m).outcome.Ok?)
    && forall n: nat :: AttemptLater(tr, n)
  }

  lemma CalmStep(s: State, a: Action)
    requires Enabled(s, a) && MutexHeld(s) && InSession(s) && s.client.poll && (a.Work? ==> a.outcome.Ok?)
    requires |Apply(s, a).server.sessions| > 0 ==> Apply(s, a).client.poll
    requires s.main.Starting? ==> s.worker.NotStarted?
    ensures InSession(Apply(s, a)) && |Apply(s, a).server.sessions| == |s.server.sessions|
  {
  }

  lemma CalmOneMore(tr: Trace, timeouts: seq<nat>, m: nat)
    requires IsTrace(tr, timeouts) && MutexHeld(tr.state(m)) && InSession(tr.state(m)) && |tr.state(m).server.sessions| > 0
    requires tr.action(m).Work? ==> tr.action(m).outcome.Ok?
    requires tr.state(m).client.poll && (tr.state(m).main.Starting? ==> tr.state(m).worker.NotStarted?)
    requires |tr.state(m + 1).server.sessions| > 0 ==> tr.state(m + 1).client.poll
    ensures InSession(tr.state(m + 1)) && |tr.state(m + 1).server.sessions| > 0
  {
    assert StepAt(tr, m);
    CalmStep(tr.state(m), tr.action(m));
  }

  lemma {:induction false} StaysCalm(tr: Trace, timeouts: seq<nat>, n0: nat, n: nat)
    requires Calm(tr, timeouts, n0) && n >= n0
    ensures InSession(tr.state(n)) && |tr.state(n).server.sessions| > 0
  {
    PollsIn(tr, timeouts, n0, n);
    if n > n0 {
      StaysCalm(tr, timeouts, n0, n - 1);
      PollsIn(tr, timeouts, n0, n - 1);
      CalmOneMore(tr, timeouts, n - 1);
    } else {
      NeedsOne(tr.state(n));
    }
  }

  lemma NeedsOne(s: State)
    requires MutexHeld(s) && InSession(s)
    ensures |s.server.sessions| > 0
  {
  }

  /** Then every response that is put into the newest session is handled. */
  lemma EverythingIsHandled(tr: Trace, timeouts: seq<nat>, n0: nat, n: nat, e: Issued)
    requires Calm(tr, timeouts, n0) && n >= n0 && e in Current(tr.state(n).server.sessions)
    ensures exists m: nat :: m >= n && e in tr.state(m).past.handled
  {
    StaysCalm(tr, timeouts, n0, n);
    SoundAt(tr, timeouts, n);
    assert AttemptLater(tr, n);
    var m: nat :| m >= n && Attempt(tr, m);
    var a := SomeFirstAttempt(tr, n, m);
    HandledExactly(tr, timeouts, n0, n, e);
  }

  // ---------- both losses occur ----------

  /** The worker is about to report, and a command waits in its session. */
  function CommandWaits(timeouts: seq<nat>): State
    requires |timeouts| >= 1
  {
    var s := Queued(timeouts);
    ApplyIssue(Served(s.(client := s.client.(poll := true), worker := Connecting(false))), 0, AskCommand("date"))
  }

  lemma CommandWaitsReaches(timeouts: seq<nat>)
    requires |timeouts| >= 1
    ensures Reachable(timeouts, CommandWaits(timeouts)) && Expected(CommandWaits(timeouts), CommandWaits(timeouts).server.issued[0])
  {
    QueuedReaches(timeouts);
    var s := Queued(timeouts);
    Extend(timeouts, s, Work(Ok));
    var s1 := s.(client := s.client.(poll := true), worker := Connecting(false));
    ServeReaches(timeouts, s1);
    Extend(timeouts, Served(s1), Issue(0, AskCommand("date")));
  }

  /** A command that is gone in a reachable state is never handled. */
  ghost predicate NeverHandled(timeouts: seq<nat>, s: State, e: Issued) {
    && Reachable(timeouts, s) && e in s.server.issued && e.res.RunCommand?
    && forall s' :: ReachableFrom(s, s') ==> e !in s'.past.handled
  }

  lemma GoneIsNever(timeouts: seq<nat>, s: State, e: Issued)
    requires Reachable(timeouts, s) && e in s.server.issued && e.res.RunCommand? && Gone(s, e)
    ensures NeverHandled(timeouts, s, e)
  {
    var actions :| IsRun(Init(timeouts), actions) && Exec(Init(timeouts), actions) == s;
    SoundInit(timeouts);
    SoundRun(Init(timeouts), actions);
    forall s' | ReachableFrom(s, s') ensures e !in s'.past.handled {
      var more :| IsRun(s, more) && Exec(s, more) == s';
      GoneForGood(s, more, e);
    }
  }

  /** The report is ingested, and its reply does not arrive. */
  lemma LostWithReply(timeouts: seq<nat>)
    requires |timeouts| >= 1
    ensures exists s, e :: NeverHandled(timeouts, s, e) && s.past.lost == [e]
  {
    CommandWaitsReaches(timeouts);
    var s := CommandWaits(timeouts);
    var e := s.server.issued[0];
    Extend(timeouts, s, Work(FailAfter));
    var s1 := Apply(s, Work(FailAfter));
    assert s1.past.lost == [e];
    GoneIsNever(timeouts, s1, e);
  }

  /** The report does not arrive, no reply is lost, and the worker opens a new session. */
  lemma LeftInSession(timeouts: seq<nat>)
    requires |timeouts| >= 1
    ensures exists s, e :: NeverHandled(timeouts, s, e) && s.past.lost == [] && |s.server.sessions| == 2 && e in s.server.sessions[0].queue
  {
    CommandWaitsReaches(timeouts);
    var s := CommandWaits(timeouts);
    var e := s.server.issued[0];
    Extend(timeouts, s, Work(FailBefore));
    var s1 := s.(worker := GivingBack);
    Extend(timeouts, s1, Work(Ok));
    var s2 := Apply(s1, Work(Ok));
    Extend(timeouts, s2, Work(Ok));
    var s3 := Apply(s2, Work(Ok));
    assert Waits(s3, e);
    GoneIsNever(timeouts, s3, e);
  }
}
