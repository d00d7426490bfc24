/** RmsServer::clients_, the registry of sessions. */
module Registry {
  import opened Wire
  import opened Sequences
  import opened Sessions

  // ---------- the class ----------

  /** The elements of s whose id is not id, in order. */
  function RemoveId<T(==)>(s: seq<T>, ids: map<T, int>, id: int): seq<T>
    requires forall x <- s :: x in ids
    decreases |s|
  {
    if s == [] then []
    else RemoveId(s[..|s| - 1], ids, id) + (if ids[s[|s| - 1]] == id then [] else [s[|s| - 1]])
  }

  ghost function IdsOf(s: seq<RmsClient>): map<RmsClient, int>
    reads s, set c <- s | c.computer != null :: c.computer
    requires forall c <- s :: c.computer != null
  {
    map c | c in s :: c.computer.computerId
  }

  class RmsServer {
    var clients: seq<RmsClient>

    /** getId dereferences computer_: every listed session has handshaken. */
    ghost predicate AllGreeted()
      reads this, clients
    {
      forall c <- clients :: c.computer != null
    }

    constructor ()
      ensures clients == []
    {
      clients := [];
    }

    method AddClient(client: RmsClient)
      modifies this
      ensures clients == old(clients) + [client]
    {
      clients := clients + [client];
    }

    /** erase(remove_if): every session with the id goes, not only the released one. */
    method RemoveClient(id: int)
      requires AllGreeted()
      modifies this
      ensures clients == RemoveId(old(clients), old(IdsOf(clients)), id)
    {
      ghost var ids := IdsOf(clients);
      var kept := [];
      for i := 0 to |clients|
        invariant kept == RemoveId(clients[..i], ids, id)
        invariant clients == old(clients)
      {
        assert clients[..i + 1][..i] == clients[..i] && clients[i] in clients;
        if clients[i].computer.computerId != id {
          kept := kept + [clients[i]];
        }
      }
      assert clients[..|clients|] == clients;
      clients := kept;
    }

    /** The oldest listed session with the id, or null. */
    method GetClient(id: int) returns (client: RmsClient?)
      requires AllGreeted()
      ensures client == null ==> forall c <- clients :: c.computer.computerId != id
      ensures client != null ==> client in clients && client.computer.computerId == id
      ensures client != null ==> exists i :: 0 <= i < |clients| && clients[i] == client &&
                                   forall j :: 0 <= j < i ==> clients[j].computer.computerId != id
    {
      for i := 0 to |clients|
        invariant forall j :: 0 <= j < i ==> clients[j].computer.computerId != id
      {
        assert clients[i] in clients;
        if clients[i].computer.computerId == id {
          return clients[i];
        }
      }
      client := null;
    }

    method GetClientsIdList() returns (ids: seq<int>)
      requires AllGreeted()
      ensures |ids| == |clients| && forall i :: 0 <= i < |clients| ==> ids[i] == IdsOf(clients)[clients[i]]
    {
      ids := [];
      for i := 0 to |clients|
        invariant |ids| == i && forall j :: 0 <= j < i ==> ids[j] == IdsOf(clients)[clients[j]]
      {
        assert clients[i] in clients;
        ids := ids + [clients[i].computer.computerId];
      }
    }
  }

  // ---------- runs ----------

  /** Sessions are numbered in connection order. live: connected and not released;
      clients: what the registry holds; ids: the sessions that have handshaken. */
  datatype State = State(next: nat, live: seq<nat>, clients: seq<nat>, ids: map<nat, int>)

  datatype Event = Connect | Greet(session: nat, id: int) | Release(session: nat)

  const EMPTY := State(0, [], [], map[])

  /** Release compares the ids of all listed sessions. */
  predicate Possible(s: State, e: Event) {
    match e
    case Connect => true
    case Greet(c, _) => c in s.live
    case Release(c) => c in s.live && c in s.ids && forall x <- s.clients :: x in s.ids
  }

  function Remove(s: seq<nat>, c: nat): seq<nat>
    decreases |s|
  {
    if s == [] then []
    else Remove(s[..|s| - 1], c) + (if s[|s| - 1] == c then [] else [s[|s| - 1]])
  }

  function After(s: State, e: Event): State
    requires Possible(s, e)
  {
    match e
    case Connect => State(s.next + 1, s.live + [s.next], s.clients + [s.next], s.ids)
    case Greet(c, id) => s.(ids := s.ids[c := id])
    case Release(c) => s.(live := Remove(s.live, c), clients := RemoveId(s.clients, s.ids, s.ids[c]))
  }

  /** None: the history has an event that was not possible. */
  function Replay(events: seq<Event>): Option<State>
    decreases |events|
  {
    if events == [] then Some(EMPTY)
    else
      var before := Replay(events[..|events| - 1]);
      var e := events[|events| - 1];
      if before.Some? && Possible(before.value, e) then Some(After(before.value, e)) else None
  }

  /** Live sessions in connection order; the registry lists only live ones, in that order. */
  ghost predicate ListsLive(s: State) {
    && (forall i, j :: 0 <= i < j < |s.live| ==> s.live[i] < s.live[j])
    && (forall x <- s.live :: x < s.next)
    && (forall x <- s.clients :: x in s.live)
    && Subsequence(s.clients, s.live)
  }

  lemma {:induction false} RemoveIn(s: seq<nat>, c: nat)
    ensures forall x :: x in Remove(s, c) <==> x in s && x != c
    decreases |s|
  {
    if s != [] {
      RemoveIn(s[..|s| - 1], c);
      assert s == s[..|s| - 1] + [s[|s| - 1]];
    }
  }

  lemma {:induction false} RemoveIdIn(s: seq<nat>, ids: map<nat, int>, id: int)
    requires forall x <- s :: x in ids
    ensures forall x :: x in RemoveId(s, ids, id) <==> x in s && ids[x] != id
    decreases |s|
  {
    if s != [] {
      RemoveIdIn(s[..|s| - 1], ids, id);
      assert s == s[..|s| - 1] + [s[|s| - 1]];
    }
  }

  lemma {:induction false} RemoveIncreasing(s: seq<nat>, c: nat)
    requires forall i, j :: 0 <= i < j < |s| ==> s[i] < s[j]
    ensures forall i, j :: 0 <= i < j < |Remove(s, c)| ==> Remove(s, c)[i] < Remove(s, c)[j]
    decreases |s|
  {
    if s != [] {
      RemoveIncreasing(s[..|s| - 1], c);
      RemoveIn(s[..|s| - 1], c);
      var front := Remove(s[..|s| - 1], c);
      assert forall i :: 0 <= i < |front| ==> front[i] in s[..|s| - 1];
    }
  }

  lemma {:induction false} SubsequenceAppend(a: seq<nat>, b: seq<nat>, x: nat)
    requires Subsequence(a, b)
    ensures Subsequence(a + [x], b + [x]) && Subsequence(a, b + [x])
  {
    assert (a + [x])[..|a|] == a && (b + [x])[..|b|] == b;
  }

  /** Removing every listed session with c's id from clients, and c from live. */
  lemma {:induction false} RemoveBoth(clients: seq<nat>, live: seq<nat>, ids: map<nat, int>, c: nat)
    requires Subsequence(clients, live) && c in ids && forall x <- clients :: x in ids
    ensures Subsequence(RemoveId(clients, ids, ids[c]), Remove(live, c))
    decreases |live|
  {
    if clients != [] {
      var last, lastLive := clients[|clients| - 1], live[|live| - 1];
      var front, frontLive := clients[..|clients| - 1], live[..|live| - 1];
      if last == lastLive && Subsequence(front, frontLive) {
        RemoveBoth(front, frontLive, ids, c);
        SubsequenceAppend(RemoveId(front, ids, ids[c]), Remove(frontLive, c), last);
        assert RemoveId(front, ids, ids[c]) + [] == RemoveId(front, ids, ids[c]);
        assert Remove(frontLive, c) + [] == Remove(frontLive, c);
      } else {
        RemoveBoth(clients, frontLive, ids, c);
        SubsequenceAppend(RemoveId(clients, ids, ids[c]), Remove(frontLive, c), lastLive);
        assert Remove(frontLive, c) + [] == Remove(frontLive, c);
      }
    }
  }

  lemma ListsLiveStep(s: State, e: Event)
    requires ListsLive(s) && Possible(s, e)
    ensures ListsLive(After(s, e))
  {
    match e
    case Connect =>
      SubsequenceAppend(s.clients, s.live, s.next);
      assert forall i :: 0 <= i < |s.live| ==> s.live[i] in s.live;
    case Greet(_, _) =>
    case Release(c) =>
      RemoveIn(s.live, c);
      RemoveIdIn(s.clients, s.ids, s.ids[c]);
      RemoveIncreasing(s.live, c);
      RemoveBoth(s.clients, s.live, s.ids, c);
  }

  /** In every run the registry holds no released session, and keeps connection order. */
  lemma {:induction false} RegistrySafe(events: seq<Event>)
    requires Replay(events).Some?
    ensures ListsLive(Replay(events).value)
    decreases |events|
  {
    if events != [] {
      RegistrySafe(events[..|events| - 1]);
      ListsLiveStep(Replay(events[..|events| - 1]).value, events[|events| - 1]);
    }
  }

  /** No other live session has c's id. */
  predicate Alone(s: State, c: nat) {
    forall x <- s.live :: x != c && x in s.ids && c in s.ids ==> s.ids[x] != s.ids[c]
  }

  /** A registry that lists exactly the live sessions still does after a release,
      exactly when the released session shared its id with no live one. */
  lemma ReleaseExact(s: State, c: nat)
    requires ListsLive(s) && s.clients == s.live && Possible(s, Release(c))
    ensures After(s, Release(c)).clients == After(s, Release(c)).live <==> Alone(s, c)
  {
    if Alone(s, c) {
      SameRemoval(s.live, s.ids, c);
    } else {
      var x :| x in s.live && x != c && x in s.ids && s.ids[x] == s.ids[c];
      RemoveIn(s.live, c);
      RemoveIdIn(s.clients, s.ids, s.ids[c]);
      assert x in After(s, Release(c)).live && x !in After(s, Release(c)).clients;
    }
  }

  lemma {:induction false} SameRemoval(s: seq<nat>, ids: map<nat, int>, c: nat)
    requires c in ids && forall x <- s :: x in ids && (x != c ==> ids[x] != ids[c])
    ensures RemoveId(s, ids, ids[c]) == Remove(s, c)
    decreases |s|
  {
    if s != [] {
      SameRemoval(s[..|s| - 1], ids, c);
      assert s[|s| - 1] in s;
    }
  }

  predicate AllAlone(events: seq<Event>)
    requires Replay(events).Some?
    decreases |events|
  {
    events == [] ||
    (AllAlone(events[..|events| - 1]) &&
     (events[|events| - 1].Release? ==> Alone(Replay(events[..|events| - 1]).value, events[|events| - 1].session)))
  }

  /** So with distinct live ids at every release, the registry is the live sessions. */
  lemma {:induction false} RegistryIsLive(events: seq<Event>)
    requires Replay(events).Some? && AllAlone(events)
    ensures Replay(events).value.clients == Replay(events).value.live
    decreases |events|
  {
    if events != [] {
      var front := events[..|events| - 1];
      RegistryIsLive(front);
      RegistrySafe(front);
      if events[|events| - 1].Release? {
        ReleaseExact(Replay(front).value, events[|events| - 1].session);
      }
    }
  }

  lemma ReplayStep(events: seq<Event>, e: Event)
    requires Replay(events).Some? && Possible(Replay(events).value, e)
    ensures Replay(events + [e]) == Some(After(Replay(events).value, e))
  {
    assert (events + [e])[..|events|] == events;
  }

  /** A reporter that reconnects before its old session is released disappears from
      the registry when that release comes. */
  lemma ReconnectedSessionVanishes(id: int)
    ensures var end := Replay([Connect] + [Greet(0, id)] + [Connect] + [Greet(1, id)] + [Release(0)]);
            end.Some? && end.value.live == [1] && end.value.clients == []
  {
    var e1: seq<Event> := [Connect];
    var e2 := e1 + [Greet(0, id)];
    var e3 := e2 + [Connect];
    var e4 := e3 + [Greet(1, id)];
    var ids: map<nat, int> := map[0 := id, 1 := id];
    ReplayStep([], Connect);
    assert [] + [Connect] == e1 && EMPTY.live + [0] == [0];
    ReplayStep(e1, Greet(0, id));
    ReplayStep(e2, Connect);
    assert [0] + [1] == [0, 1] && Replay(e3).value.live == Replay(e3).value.clients == [0, 1];
    ReplayStep(e3, Greet(1, id));
    assert Replay(e4).value.ids == ids;
    ReplayStep(e4, Release(0));
    PairRemoval(ids, id);
  }

  lemma PairRemoval(ids: map<nat, int>, id: int)
    requires 0 in ids && 1 in ids && ids[0] == ids[1] == id
    ensures Remove([0, 1], 0) == [1] && RemoveId([0, 1], ids, id) == []
  {
    var both: seq<nat>, first: seq<nat> := [0, 1], [0];
    assert both[..1] == first && first[..0] == [];
    assert Remove(first, 0) == Remove([], 0) + [] == [];
    assert RemoveId(first, ids, id) == RemoveId([], ids, id) + [] == [];
  }
}
