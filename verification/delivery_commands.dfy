/** The way back: responses issued by the server, drained into replies and handled
    by the reporter, and the executors that commands start. */
module DeliveryCommands {
  import opened DeliveryMachine

  predicate Increasing(s: seq<Issued>) {
    forall i, j :: 0 <= i < j < |s| ==> s[i].no < s[j].no
  }

  /** Every element of s is an issued response, at the position it carries. */
  predicate AllIssued(s: seq<Issued>, issued: seq<Issued>) {
    forall k :: 0 <= k < |s| ==> s[k].no < |issued| && issued[s[k].no] == s[k]
  }

  predicate IssuedNumbered(issued: seq<Issued>, sessions: nat) {
    forall i :: 0 <= i < |issued| ==> issued[i].no == i && issued[i].session < sessions
  }

  /** The responses of s that were put into session k. */
  function Of(s: seq<Issued>, k: nat): seq<Issued> {
    if |s| == 0 then []
    else Of(s[..|s| - 1], k) + (if s[|s| - 1].session == k then [s[|s| - 1]] else [])
  }

  lemma OfAppend(s: seq<Issued>, e: Issued, k: nat)
    ensures Of(s + [e], k) == Of(s, k) + (if e.session == k then [e] else [])
  {
    assert (s + [e])[..|s|] == s;
  }

  lemma OfNone(s: seq<Issued>, k: nat)
    requires IssuedNumbered(s, k)
    ensures Of(s, k) == []
  {
  }

  function Rest(w: WorkerPc): seq<Issued> {
    if w.Handling? then w.rest else []
  }

  /** The newest session's queue, the only one that report() drains from now on. */
  function Current(sessions: seq<Session>): seq<Issued> {
    if |sessions| == 0 then [] else sessions[|sessions| - 1].queue
  }

  // ---------- per session ----------

  predicate SessionFifo(session: Session, issued: seq<Issued>, k: nat) {
    session.drained + session.queue == session.added && session.added == Of(issued, k)
  }

  ghost predicate SessionsConserved(s: State) {
    && IssuedNumbered(s.server.issued, |s.server.sessions|)
    && (forall k :: 0 <= k < |s.server.sessions| ==> SessionFifo(s.server.sessions[k], s.server.issued, k))
  }

  lemma SessionsStep(s: State, a: Action)
    requires SessionsConserved(s) && Enabled(s, a)
    ensures SessionsConserved(Apply(s, a))
  {
    match a
    case Issue(sid, ask) => SessionsIssue(s, sid, ask);
    case Work(outcome) => SessionsWorker(s, outcome);
    case _ =>
  }

  lemma SessionsIssue(s: State, sid: nat, ask: Ask)
    requires SessionsConserved(s) && sid < |s.server.sessions|
    ensures SessionsConserved(ApplyIssue(s, sid, ask))
  {
    var s' := ApplyIssue(s, sid, ask);
    var e := s'.server.issued[|s.server.issued|];
    forall k | 0 <= k < |s'.server.sessions|
      ensures SessionFifo(s'.server.sessions[k], s'.server.issued, k)
    {
      assert SessionFifo(s.server.sessions[k], s.server.issued, k);
      OfAppend(s.server.issued, e, k);
    }
  }

  lemma SessionsWorker(s: State, outcome: Outcome)
    requires SessionsConserved(s) && WorkerEnabled(s)
    ensures SessionsConserved(ApplyWorker(s, outcome))
  {
    if s.worker.Serving? {
      SessionsServing(s, outcome);
    } else if s.worker.Connecting? {
      OfNone(s.server.issued, |s.server.sessions|);
    } else {
      assert ApplyWorker(s, outcome).server == s.server;
    }
  }

  lemma SessionsServing(s: State, outcome: Outcome)
    requires SessionsConserved(s) && |s.client.queue| > 0 && |s.server.sessions| > 0
    ensures SessionsConserved(ApplyServing(s, outcome))
  {
    var cur := |s.server.sessions| - 1;
    assert SessionFifo(s.server.sessions[cur], s.server.issued, cur);
  }

  // ---------- drained, handled, lost ----------

  predicate Flow(drained: seq<Issued>, current: seq<Issued>, issued: seq<Issued>) {
    Increasing(drained + current) && AllIssued(drained + current, issued)
  }

  predicate Accounted(drained: seq<Issued>, handled: seq<Issued>, rest: seq<Issued>, lost: seq<Issued>) {
    && multiset(drained) == multiset(handled) + multiset(rest) + multiset(lost)
    && (lost == [] ==> drained == handled + rest)
    && Increasing(handled + rest)
  }

  ghost predicate CommandsFlow(s: State) {
    && Flow(s.server.drained, Current(s.server.sessions), s.server.issued)
    && Accounted(s.server.drained, s.past.handled, Rest(s.worker), s.past.lost)
  }

  lemma CommandsStep(s: State, a: Action)
    requires CommandsFlow(s) && Enabled(s, a)
    requires s.main.Starting? ==> s.worker.NotStarted?
    ensures CommandsFlow(Apply(s, a))
  {
    match a
    case Issue(sid, ask) => FlowIssue(s, sid, ask);
    case Work(outcome) => CommandsWorker(s, outcome);
    case _ => assert Rest(Apply(s, a).worker) == Rest(s.worker);
  }

  lemma FlowIssue(s: State, sid: nat, ask: Ask)
    requires CommandsFlow(s) && sid < |s.server.sessions|
    ensures CommandsFlow(ApplyIssue(s, sid, ask))
  {
    var s' := ApplyIssue(s, sid, ask);
    var e := s'.server.issued[|s.server.issued|];
    var before := s.server.drained + Current(s.server.sessions);
    assert s.server.drained + (Current(s.server.sessions) + [e]) == before + [e];
  }

  lemma CommandsWorker(s: State, outcome: Outcome)
    requires CommandsFlow(s) && WorkerEnabled(s)
    ensures CommandsFlow(ApplyWorker(s, outcome))
  {
    var s' := ApplyWorker(s, outcome);
    if s.worker.Serving? {
      CommandsServing(s, outcome);
    } else if s.worker.Connecting? {
      assert s'.server.drained == s.server.drained && s'.past == s.past;
      assert forall i :: 0 <= i < |s.server.drained| ==> s.server.drained[i] == (s.server.drained + Current(s.server.sessions))[i];
      if s'.server.sessions != s.server.sessions {
        assert s.server.drained + Current(s'.server.sessions) == s.server.drained;
      }
    } else if s.worker.Handling? {
      CommandsHandling(s, outcome);
    } else {
      assert s'.server == s.server && s'.past.handled == s.past.handled && s'.past.lost == s.past.lost;
    }
  }

  lemma CommandsServing(s: State, outcome: Outcome)
    requires CommandsFlow(s) && s.worker.Serving? && |s.client.queue| > 0 && |s.server.sessions| > 0
    ensures CommandsFlow(ApplyServing(s, outcome))
  {
    var drained, reply := s.server.drained, Reply(s);
    assert (drained + reply) + [] == drained + reply;
    AccountReply(drained, s.past.handled, s.past.lost, reply);
  }

  /** A drained batch either travels on to the reporter or is lost with its reply. */
  lemma AccountReply(drained: seq<Issued>, handled: seq<Issued>, lost: seq<Issued>, reply: seq<Issued>)
    requires Accounted(drained, handled, [], lost) && Increasing(drained + reply)
    ensures Accounted(drained + reply, handled, reply, lost)
    ensures Accounted(drained + reply, handled, [], lost + reply)
  {
    assert handled + [] == handled;
    forall i: int, j: int | 0 <= i < j < |handled| + |reply|
      ensures (handled + reply)[i].no < (handled + reply)[j].no
    {
      if i < |handled| <= j {
        assert handled[i] in multiset(drained);
        var k :| 0 <= k < |drained| && drained[k] == handled[i];
        assert (drained + reply)[k].no < (drained + reply)[|drained| + j - |handled|].no;
      } else if j >= |handled| {
        assert (drained + reply)[|drained| + i - |handled|].no < (drained + reply)[|drained| + j - |handled|].no;
      }
    }
  }

  lemma CommandsHandling(s: State, outcome: Outcome)
    requires CommandsFlow(s) && s.worker.Handling?
    ensures CommandsFlow(ApplyHandling(s, s.worker.rest, outcome))
  {
    var rest := s.worker.rest;
    if rest != [] {
      AccountHandled(s.server.drained, s.past.handled, rest, s.past.lost);
    }
  }

  lemma AccountHandled(drained: seq<Issued>, handled: seq<Issued>, rest: seq<Issued>, lost: seq<Issued>)
    requires Accounted(drained, handled, rest, lost) && rest != []
    ensures Accounted(drained, handled + [rest[0]], rest[1..], lost)
    ensures Accounted(drained, handled, [], lost + rest)
  {
    assert rest == [rest[0]] + rest[1..];
    assert handled + rest == (handled + [rest[0]]) + rest[1..];
    assert forall i :: 0 <= i < |handled| ==> handled[i] == (handled + rest)[i];
    assert handled + [] == handled;
  }
}
