/** The hypotheses of DeliveryLiveness.EverythingIsDelivered and of
    CommandFate.EverythingIsHandled can be met by a run that sends for ever: one consumer and the worker, taking turns. */
module DeliveryLivenessWitness {
  import opened DeliveryMachine
  import opened DeliveryWitnesses
  import opened Traces
  import opened ShutdownWitness
  import opened DeliveryLiveness
  import opened CommandFate

  const ROUND: nat := 11

  /** Step j of a round: the consumer sends a request, the worker serves it. */
  function RoundAction(j: nat): Action {
    if j < 4 then Produce(0, KTcp, PING) else Work(Ok)
  }

  function ConsumerAt(j: nat): ProducerPc {
    match j
    case 1 => Sending(KTcp, PING)
    case 2 => Releasing
    case 3 => Sleeping(0)
    case _ => Looping
  }

  function WorkerAt(j: nat): WorkerPc {
    match j
    case 5 => Acquired
    case 6 => Locking
    case 7 => Serving
    case 8 => Handling([])
    case 9 => Popping
    case 10 => Testing
    case _ => Acquiring
  }

  /** Before step j of the round that sends the request after es. */
  function RoundState(es: seq<Entry>, j: nat): State {
    var e := Entry(|es|, KTcp, PING);
    State(1, [Producer(Consumer(0), true, ConsumerAt(j))], WorkerAt(j), Running,
      Client(if 2 <= j <= 9 then [e] else [], if 3 <= j <= 4 then 1 else 0, true, 7 <= j <= 9),
      Server([Session([], [], [])], 1, if j >= 8 then es + [e] else es, [], []),
      Past(if j >= 2 then es + [e] else es, if j >= 10 then es + [e] else es, [], []))
  }

  function History(rounds: nat): seq<Entry> {
    seq(rounds, i requires 0 <= i < rounds => Entry(i, KTcp, PING))
  }

  lemma RoundStep(rounds: nat, j: nat)
    requires j < ROUND
    ensures var s, s' := RoundState(History(rounds), j), if j + 1 < ROUND then RoundState(History(rounds), j + 1) else RoundState(History(rounds + 1), 0);
            Enabled(s, RoundAction(j)) && Apply(s, RoundAction(j)) == s'
  {
    var es := History(rounds);
    assert History(rounds + 1) == es + [Entry(|es|, KTcp, PING)];
    if j < 4 {
      ProducerTurn(es, j);
    } else {
      WorkerTurn(es, j);
    }
  }

  lemma ProducerTurn(es: seq<Entry>, j: nat)
    requires j < 4
    ensures Enabled(RoundState(es, j), RoundAction(j)) && Apply(RoundState(es, j), RoundAction(j)) == RoundState(es, j + 1)
  {
  }

  lemma WorkerTurn(es: seq<Entry>, j: nat)
    requires 4 <= j < ROUND
    ensures Enabled(RoundState(es, j), RoundAction(j))
    ensures Apply(RoundState(es, j), RoundAction(j)) == if j + 1 < ROUND then RoundState(es, j + 1) else RoundState(es + [Entry(|es|, KTcp, PING)], 0)
  {
    var e := Entry(|es|, KTcp, PING);
    assert [e][1..] == [] && [Session([], [], [])][0 := Session([], [], [])] == [Session([], [], [])];
    var none: seq<Issued> := [];
    assert none + none == none;
  }

  /** The rounds done after d steps, and the steps of the one after them. */
  function Place(d: nat): (p: (nat, nat))
    ensures p.1 < ROUND
  {
    if d == 0 then (0, 0)
    else
      var p := Place(d - 1);
      if p.1 + 1 < ROUND then (p.0, p.1 + 1) else (p.0 + 1, 0)
  }

  lemma {:induction false} PlaceOf(rounds: nat, j: nat)
    requires j < ROUND
    ensures Place(rounds * ROUND + j) == (rounds, j)
    decreases rounds, j
  {
    if j > 0 {
      PlaceOf(rounds, j - 1);
    } else if rounds > 0 {
      PlaceOf(rounds - 1, ROUND - 1);
      assert rounds * ROUND == (rounds - 1) * ROUND + (ROUND - 1) + 1;
    }
  }

  function RoundsAt(d: nat): State { RoundState(History(Place(d).0), Place(d).1) }

  function RoundsAction(d: nat): Action { RoundAction(Place(d).1) }

  lemma RoundsAtStep(d: nat)
    ensures Enabled(RoundsAt(d), RoundsAction(d)) && Apply(RoundsAt(d), RoundsAction(d)) == RoundsAt(d + 1)
  {
    RoundStep(Place(d).0, Place(d).1);
    assert Place(d + 1) == if Place(d).1 + 1 < ROUND then (Place(d).0, Place(d).1 + 1) else (Place(d).0 + 1, 0);
  }

  /** The actions up to the first round, then one round after another. */
  ghost function Rounds(start: State, actions: seq<Action>): Trace
    requires Smooth(start, actions)
  {
    Trace((n: nat) => if n < |actions| then At(start, actions, n)
                      else RoundsAt(n - |actions|),
          (n: nat) => if n < |actions| then actions[n] else RoundsAction(n - |actions|))
  }

  lemma RoundsStep(start: State, actions: seq<Action>, n: nat)
    requires Smooth(start, actions) && End(start, actions) == RoundState([], 0)
    ensures StepAt(Rounds(start, actions), n) && (Rounds(start, actions).action(n).Work? ==> Rounds(start, actions).action(n).outcome.Ok?)
  {
    if n < |actions| {
      FirstPart(start, actions, n);
    } else {
      LaterPart(start, actions, n - |actions|);
    }
  }

  lemma FirstPart(start: State, actions: seq<Action>, n: nat)
    requires Smooth(start, actions) && End(start, actions) == RoundState([], 0) && n < |actions|
    ensures StepAt(Rounds(start, actions), n) && (Rounds(start, actions).action(n).Work? ==> Rounds(start, actions).action(n).outcome.Ok?)
  {
    AtStep(start, actions, n);
    AtStep(start, actions, n + 1);
    assert History(0) == [];
    assert Rounds(start, actions).state(n + 1) == At(start, actions, n + 1);
  }

  lemma LaterPart(start: State, actions: seq<Action>, d: nat)
    requires Smooth(start, actions)
    ensures StepAt(Rounds(start, actions), |actions| + d)
    ensures Rounds(start, actions).action(|actions| + d) == RoundsAction(d)
  {
    var n := |actions| + d;
    RoundsLater(start, actions, n);
    RoundsLater(start, actions, n + 1);
    RoundsAtStep(d);
    NoEarlyStop(RoundsAt(d), RoundsAction(d));
    IsStep(Rounds(start, actions), n, RoundsAt(d), RoundsAction(d), RoundsAt(d + 1));
  }

  lemma RoundsLater(start: State, actions: seq<Action>, n: nat)
    requires Smooth(start, actions) && n >= |actions|
    ensures Rounds(start, actions).state(n) == RoundsAt(n - |actions|)
    ensures Rounds(start, actions).action(n) == RoundsAction(n - |actions|)
  {
  }

  lemma IsStep(tr: Trace, n: nat, s: State, a: Action, s': State)
    requires tr.state(n) == s && tr.action(n) == a && tr.state(n + 1) == s'
    requires Enabled(s, a) && Ordered(s, a) && Apply(s, a) == s'
    ensures StepAt(tr, n)
  {
  }

  lemma NoEarlyStop(s: State, a: Action)
    requires !a.Main?
    ensures Ordered(s, a)
  {
  }

  /** Step j of a round that comes after n. */
  lemma LaterRound(start: State, actions: seq<Action>, n: nat, j: nat) returns (m: nat)
    requires Smooth(start, actions) && j < ROUND
    ensures m >= n && m >= |actions| && Rounds(start, actions).action(m) == RoundAction(j)
    ensures exists r: nat :: Rounds(start, actions).state(m) == RoundState(History(r), j)
  {
    m := |actions| + n * ROUND + j;
    PlaceOf(n, j);
    assert m - |actions| == n * ROUND + j;
    RoundsLater(start, actions, m);
    assert RoundsAt(m - |actions|) == RoundState(History(n), j);
  }

  lemma RoundsFair(start: State, actions: seq<Action>, t: Thread)
    requires Smooth(start, actions)
    ensures WeaklyFairTo(Rounds(start, actions), t)
  {
    forall n: nat | forall m: nat :: m >= n ==> ThreadEnabled(Rounds(start, actions).state(m), t)
      ensures StepsLater(Rounds(start, actions), t, n)
    {
      var m := LaterRound(start, actions, n, if t.WorkerThread? then 4 else 0);
      assert ThreadEnabled(Rounds(start, actions).state(m), t);
      assert By(Rounds(start, actions).action(m), t);
    }
  }

  lemma BusyDeliveryExists()
    ensures exists tr, n0 :: Calm(tr, ALONE, n0)
  {
    WaitsForToken(ALONE);
    var start := Init(ALONE);
    assert Waiting(ALONE) == RoundState([], 0) by {
      assert Looped(ALONE, 1) == [Producer(Consumer(0), true, Looping)];
    }
    var a :| Smooth(start, a) && End(start, a) == RoundState([], 0);
    var tr := Rounds(start, a);
    forall n: nat ensures StepAt(tr, n) && (tr.action(n).Work? ==> tr.action(n).outcome.Ok?) {
      RoundsStep(start, a, n);
    }
    forall t: Thread ensures WeaklyFairTo(tr, t) {
      RoundsFair(start, a, t);
    }
    forall n: nat ensures AttemptLater(tr, n) {
      var m := LaterRound(start, a, n, 7);
      assert Attempt(tr, m);
    }
    forall n: nat ensures SuccessLater(tr, n) {
      assert AttemptLater(tr, n);
    }
    forall n: nat | OpensLater(tr, n) ensures OpenedLater(tr, n) {
    }
    assert |a| > 0 && tr.state(0) == Init(ALONE);
    forall m: nat | m >= |a| ensures tr.state(m).main == Running {
      RoundsLater(start, a, m);
    }
    assert Delivers(tr, ALONE, |a|);
    assert Calm(tr, ALONE, |a|);
  }
}
