/** Where responses and requests come from: what the server issues is what was asked of
    it, and what the reporter queues is what its threads handed in. */
module Provenance {
  import opened Wire
  import opened DeliveryMachine
  import opened DeliveryInvariant
  import opened DeliveryCommands
  import opened DeliveryExecutors
  import opened Delivery

  // ---------- responses ----------

  /** An Issue action: which session was asked, and for what. */
  datatype Asked = Asked(session: nat, ask: Ask)

  function AsksOf(actions: seq<Action>): seq<Asked> {
    if actions == [] then []
    else (if actions[0].Issue? then [Asked(actions[0].session, actions[0].ask)] else []) + AsksOf(actions[1..])
  }

  /** How many of the asks are for a command: each has its own executor row. */
  function CommandsIn(asked: seq<Asked>): nat {
    if asked == [] then 0
    else CommandsIn(asked[..|asked| - 1]) + if asked[|asked| - 1].ask.AskCommand? then 1 else 0
  }

  /** The response is the answer to the k-th ask, and a command has the next row id. */
  predicate Answers(e: Issued, asked: seq<Asked>, k: nat)
    requires k < |asked|
  {
    && e.no == k && e.session == asked[k].session
    && match asked[k].ask
       case AskSystemInfo => e.res == SendSystemInfo
       case AskCommand(command) => e.res == RunCommand(1 + CommandsIn(asked[..k]), command)
       case AskScript(filename) => e.res == RunScript(filename)
  }

  ghost predicate AllAnswered(s: State, asked: seq<Asked>) {
    && |s.server.issued| == |asked| && s.server.nextExecutor == 1 + CommandsIn(asked)
    && forall k :: 0 <= k < |asked| ==> Answers(s.server.issued[k], asked, k)
  }

  lemma AnswersStep(s: State, a: Action, asked: seq<Asked>)
    requires AllAnswered(s, asked) && Enabled(s, a)
    ensures AllAnswered(Apply(s, a), asked + AsksOf([a]))
  {
    var s' := Apply(s, a);
    assert [a][1..] == [];
    if a.Issue? {
      var more := asked + [Asked(a.session, a.ask)];
      assert AsksOf([a]) == [Asked(a.session, a.ask)];
      assert more[..|asked|] == asked;
      forall k | 0 <= k < |more| ensures Answers(s'.server.issued[k], more, k) {
        assert more[..k] == asked[..k];
        if k < |asked| {
          assert Answers(s.server.issued[k], asked, k);
        } else {
          assert asked[..k] == asked;
        }
      }
    } else {
      assert AsksOf([a]) == [] && asked + [] == asked;
      assert s'.server.issued == s.server.issued && s'.server.nextExecutor == s.server.nextExecutor;
    }
  }

  lemma {:induction false} AnswersRun(s: State, actions: seq<Action>, asked: seq<Asked>)
    requires AllAnswered(s, asked) && IsRun(s, actions)
    ensures AllAnswered(Exec(s, actions), asked + AsksOf(actions))
    decreases |actions|
  {
    if |actions| == 0 {
      assert asked + [] == asked;
    } else {
      AnswersStep(s, actions[0], asked);
      AnswersRun(Apply(s, actions[0]), actions[1..], asked + AsksOf([actions[0]]));
      assert [actions[0]][1..] == [];
      assert asked + AsksOf(actions) == (asked + AsksOf([actions[0]])) + AsksOf(actions[1..]);
    }
  }

  /** In every run, the k-th issued response answers the k-th ask: with its text or
      filename, and a command with the id of its own row. */
  lemma IssuedAnswersAsks(timeouts: seq<nat>, actions: seq<Action>)
    requires IsRun(Init(timeouts), actions)
    ensures |Exec(Init(timeouts), actions).server.issued| == |AsksOf(actions)|
    ensures forall k :: 0 <= k < |AsksOf(actions)| ==>
              Answers(Exec(Init(timeouts), actions).server.issued[k], AsksOf(actions), k)
  {
    AnswersRun(Init(timeouts), actions, []);
    assert [] + AsksOf(actions) == AsksOf(actions);
  }

  /** So whatever the reporter handles, and whatever a session was given, is the answer
      to an ask of the run. */
  lemma HandledAnswersAsk(timeouts: seq<nat>, actions: seq<Action>, e: Issued)
    requires IsRun(Init(timeouts), actions)
    requires e in Exec(Init(timeouts), actions).past.handled
    ensures e.no < |AsksOf(actions)| && Answers(e, AsksOf(actions), e.no)
  {
    SafeInit(timeouts);
    SafeRun(Init(timeouts), actions);
    IssuedAnswersAsks(timeouts, actions);
    DrainedIsIssued(Exec(Init(timeouts), actions), e);
  }

  /** An ask gives its session one more response, and no other session anything. */
  lemma AskReachesSession(s: State, sid: nat, ask: Ask, k: nat)
    requires sid < |s.server.sessions| && k < |s.server.sessions|
    ensures var s' := ApplyIssue(s, sid, ask);
            && |s'.server.issued| == |s.server.issued| + 1 && |s'.server.sessions| == |s.server.sessions|
            && s'.server.sessions[k].drained == s.server.sessions[k].drained
            && s'.server.sessions[k].queue == s.server.sessions[k].queue + (if k == sid then [s'.server.issued[|s.server.issued|]] else [])
  {
  }

  // ---------- requests ----------

  type Request = (Protocol, RmsRequest)

  /** Does the action hand r to sendRequest? A thread goes from its loop into it. */
  predicate Hands(s: State, a: Action, r: Request) {
    && a.Produce? && a.i < |s.producers| && s.producers[a.i].pc.Looping?
    && (s.producers[a.i].kind.Consumer? ==> s.producers[a.i].consuming)
    && r == (a.protocol, a.req)
  }

  /** How often a run hands r to sendRequest. */
  function Handed(s: State, actions: seq<Action>, r: Request): nat
    requires IsRun(s, actions)
    decreases |actions|
  {
    if |actions| == 0 then 0 else Bit(Hands(s, actions[0], r)) + Handed(Apply(s, actions[0]), actions[1..], r)
  }

  predicate WaitsWith(p: Producer, r: Request) {
    p.pc.Sending? && r == (p.pc.protocol, p.pc.req)
  }

  /** How many threads wait for mtx_ in sendRequest with r. */
  function Pending(ps: seq<Producer>, r: Request): nat {
    if |ps| == 0 then 0 else Pending(ps[..|ps| - 1], r) + Bit(WaitsWith(ps[|ps| - 1], r))
  }

  /** How often r is among the entries. */
  function Count(es: seq<Entry>, r: Request): nat {
    if |es| == 0 then 0 else Count(es[..|es| - 1], r) + Bit(r == (es[|es| - 1].protocol, es[|es| - 1].req))
  }

  lemma {:induction false} PendingUpdate(ps: seq<Producer>, i: nat, p: Producer, r: Request)
    requires i < |ps|
    ensures Pending(ps[i := p], r) + Bit(WaitsWith(ps[i], r)) == Pending(ps, r) + Bit(WaitsWith(p, r))
    decreases |ps|
  {
    var last := |ps| - 1;
    if i == last {
      assert ps[i := p][..last] == ps[..last];
    } else {
      assert ps[i := p][..last] == ps[..last][i := p];
      PendingUpdate(ps[..last], i, p, r);
    }
  }

  lemma PendingAppend(ps: seq<Producer>, p: Producer, r: Request)
    ensures Pending(ps + [p], r) == Pending(ps, r) + Bit(WaitsWith(p, r))
  {
    assert (ps + [p])[..|ps|] == ps;
  }

  lemma CountAppend(es: seq<Entry>, e: Entry, r: Request)
    ensures Count(es + [e], r) == Count(es, r) + Bit(r == (e.protocol, e.req))
  {
    assert (es + [e])[..|es|] == es;
  }

  /** Enqueued or pending. */
  function Known(s: State, r: Request): nat {
    Count(s.past.enqueued, r) + Pending(s.producers, r)
  }

  lemma KnownStep(s: State, a: Action, r: Request)
    requires Layout(s) && Enabled(s, a)
    ensures Known(Apply(s, a), r) == Known(s, r) + Bit(Hands(s, a, r))
  {
    match a
    case Produce(i, protocol, req) => KnownProducer(s, i, protocol, req, r);
    case Main => KnownMain(s, r);
    case Work(outcome) => KnownWorker(s, outcome, r);
    case _ =>
  }

  lemma KnownProducer(s: State, i: nat, protocol: Protocol, req: RmsRequest, r: Request)
    requires Enabled(s, Produce(i, protocol, req))
    ensures Known(ApplyProducer(s, i, protocol, req), r) == Known(s, r) + Bit(Hands(s, Produce(i, protocol, req), r))
  {
    var s' := ApplyProducer(s, i, protocol, req);
    assert s'.producers == s.producers[i := s'.producers[i]];
    PendingUpdate(s.producers, i, s'.producers[i], r);
    if s.producers[i].pc.Sending? {
      CountAppend(s.past.enqueued, s'.past.enqueued[|s.past.enqueued|], r);
    }
  }

  lemma KnownMain(s: State, r: Request)
    requires Layout(s) && MainEnabled(s)
    ensures Known(ApplyMain(s), r) == Known(s, r)
  {
    var s' := ApplyMain(s);
    if s'.producers != s.producers {
      assert s'.producers == s.producers[s.main.i := s'.producers[s.main.i]];
      PendingUpdate(s.producers, s.main.i, s'.producers[s.main.i], r);
    }
  }

  lemma KnownWorker(s: State, outcome: Outcome, r: Request)
    requires WorkerEnabled(s)
    ensures Known(ApplyWorker(s, outcome), r) == Known(s, r)
  {
    var ps := ApplyWorker(s, outcome).producers;
    if |ps| > |s.producers| {
      PendingAppend(s.producers, ps[|s.producers|], r);
    } else {
      assert ps == s.producers;
    }
  }

  lemma {:induction false} KnownRun(s: State, actions: seq<Action>, r: Request)
    requires Safe(s) && IsRun(s, actions)
    ensures Known(Exec(s, actions), r) == Known(s, r) + Handed(s, actions, r)
    decreases |actions|
  {
    if |actions| > 0 {
      SafeStep(s, actions[0]);
      KnownStep(s, actions[0], r);
      KnownRun(Apply(s, actions[0]), actions[1..], r);
    }
  }

  /** In every run, a request is enqueued, unchanged, as often as threads handed it to
      sendRequest, but for those that still wait for mtx_ with it. */
  lemma EnqueuedIsHanded(timeouts: seq<nat>, actions: seq<Action>, r: Request)
    requires IsRun(Init(timeouts), actions)
    ensures var s := Exec(Init(timeouts), actions);
            Count(s.past.enqueued, r) + Pending(s.producers, r) == Handed(Init(timeouts), actions, r)
  {
    SafeInit(timeouts);
    NonePending(Init(timeouts).producers, r);
    KnownRun(Init(timeouts), actions, r);
  }

  lemma NonePending(ps: seq<Producer>, r: Request)
    requires forall i :: 0 <= i < |ps| ==> !ps[i].pc.Sending?
    ensures Pending(ps, r) == 0
  {
  }

  // ---------- how often a consumer sends ----------

  function Turns(i: nat, k: nat): seq<Action> { seq(k, _ => Produce(i, KTcp, RmsRequest(0, []))) }

  /** After a send, a consumer that is not told to stop sleeps for exactly its timeout,
      one step after the other, and is then back in its loop. */
  lemma {:induction false} SleepsForTimeout(s: State, i: nat, k: nat)
    requires !s.worker.Crashed? && i < |s.producers| && s.producers[i].kind.Consumer? && s.producers[i].consuming
    requires s.producers[i].pc == Sleeping(0) && k <= s.producers[i].kind.timeout + 1
    ensures IsRun(s, Turns(i, k))
    ensures Exec(s, Turns(i, k)) == s.(producers := s.producers[i := s.producers[i].(pc :=
              if k <= s.producers[i].kind.timeout then Sleeping(k) else Looping)])
  {
    if k == 0 {
      assert s.producers[i := s.producers[i].(pc := Sleeping(0))] == s.producers;
    } else {
      SleepsForTimeout(s, i, k - 1);
      RunAppend(s, Turns(i, k - 1), Produce(i, KTcp, RmsRequest(0, [])));
      assert Turns(i, k) == Turns(i, k - 1) + [Produce(i, KTcp, RmsRequest(0, []))];
    }
  }
}
