/** A user with two connections, one of which disconnects. */
module PresenceWitness {
  import opened Domain
  import opened Mailboxes
  import opened HubModel
  import opened HubIndex
  import opened HubAnySchedule
  import opened HubInOrder
  import opened HubPresence

  const TAB: nat := 1
  const OTHER_TAB: nat := 2
  const LISTENER: nat := 3
  const USERS: map<nat, UserId> := map[TAB := 7, OTHER_TAB := 7, LISTENER := 8]
  const ROOM: RoomId := 5

  ghost function Arrives(c: nat): Event<nat> {
    Event(Register(c), Choice([], [], [], None))
  }

  ghost function Joins(c: nat, peers: seq<nat>): Event<nat> {
    Event(JoinRoom(c, ROOM, Found(Public, 8, true)), Choice([], [], peers, None))
  }

  const DISCONNECT: Event<nat> := Event(Unregister(TAB), Choice([ROOM], [], [], None))

  ghost function Meeting(): seq<Event<nat>> {
    [Arrives(TAB), Arrives(OTHER_TAB), Arrives(LISTENER), Joins(TAB, [TAB]), Joins(LISTENER, [TAB, LISTENER])]
  }

  /** Who is in the hub and who in the room. */
  ghost predicate Scene(s: HubState<nat>, clients: set<nat>, members: set<nat>) {
    && s.user == USERS && s.clients == clients && s.voice == map[] && InRoom(s.rooms, ROOM) == members
    && s.joined.Keys == USERS.Keys
    && forall c <- USERS :: Joined(s, c) == if c in members then {ROOM} else {}
  }

  ghost predicate Reached(es: seq<Event<nat>>, clients: set<nat>, members: set<nat>) {
    IsRun(Fresh(USERS), es) && Scene(Exec(Fresh(USERS), es), clients, members)
  }

  lemma MoreArrive(es: seq<Event<nat>>, clients: set<nat>, c: nat, es': seq<Event<nat>>, clients': set<nat>)
    requires Reached(es, clients, {}) && c in USERS && es' == es + [Arrives(c)] && clients' == clients + {c}
    ensures Reached(es', clients', {})
  {
    RunSnoc(Fresh(USERS), es, Arrives(c));
  }

  lemma JoinScene(s: HubState<nat>, clients: set<nat>, members: set<nat>, c: nat, peers: seq<nat>)
    requires Scene(s, clients, members) && c in USERS && c !in members && Enumerates(peers, members + {c})
    ensures Enabled(s, Joins(c, peers)) && Scene(Step(s, Joins(c, peers)), clients, members + {c})
  {
    assert {} + {ROOM} == {ROOM};
  }

  lemma MoreJoin(es: seq<Event<nat>>, clients: set<nat>, members: set<nat>, c: nat, peers: seq<nat>,
                 es': seq<Event<nat>>, members': set<nat>)
    requires Reached(es, clients, members) && c in USERS && c !in members
    requires es' == es + [Joins(c, peers)] && members' == members + {c} && Enumerates(peers, members')
    ensures Reached(es', clients, members')
  {
    RunSnoc(Fresh(USERS), es, Joins(c, peers));
    JoinScene(Exec(Fresh(USERS), es), clients, members, c, peers);
  }

  lemma OneArrives()
    ensures Reached([Arrives(TAB)], {TAB}, {})
  {
    assert Reached([], {}, {});
    MoreArrive([], {}, TAB, [Arrives(TAB)], {TAB});
  }

  lemma TwoArrive()
    ensures Reached([Arrives(TAB), Arrives(OTHER_TAB)], {TAB, OTHER_TAB}, {})
  {
    OneArrives();
    MoreArrive([Arrives(TAB)], {TAB}, OTHER_TAB, [Arrives(TAB), Arrives(OTHER_TAB)], {TAB, OTHER_TAB});
  }

  ghost function Arrivals(): seq<Event<nat>> {
    [Arrives(TAB), Arrives(OTHER_TAB), Arrives(LISTENER)]
  }

  lemma AllArrive()
    ensures Reached(Arrivals(), {TAB, OTHER_TAB, LISTENER}, {})
  {
    TwoArrive();
    MoreArrive([Arrives(TAB), Arrives(OTHER_TAB)], {TAB, OTHER_TAB}, LISTENER, Arrivals(), {TAB, OTHER_TAB, LISTENER});
  }

  lemma OneJoins(es: seq<Event<nat>>, clients: set<nat>, es': seq<Event<nat>>)
    requires Reached(es, clients, {}) && es' == es + [Joins(TAB, [TAB])]
    ensures Reached(es', clients, {TAB})
  {
    assert Elements([TAB]) == {TAB};
    MoreJoin(es, clients, {}, TAB, [TAB], es', {TAB});
  }

  lemma OtherJoins(es: seq<Event<nat>>, clients: set<nat>, es': seq<Event<nat>>)
    requires Reached(es, clients, {TAB}) && es' == es + [Joins(LISTENER, [TAB, LISTENER])]
    ensures Reached(es', clients, {TAB, LISTENER})
  {
    assert Elements([TAB, LISTENER]) == {TAB, LISTENER};
    MoreJoin(es, clients, {TAB}, LISTENER, [TAB, LISTENER], es', {TAB, LISTENER});
  }

  lemma Meet()
    ensures Reached(Meeting(), {TAB, OTHER_TAB, LISTENER}, {TAB, LISTENER})
  {
    var first := Arrivals() + [Joins(TAB, [TAB])];
    AllArrive();
    OneJoins(Arrivals(), {TAB, OTHER_TAB, LISTENER}, first);
    OtherJoins(first, {TAB, OTHER_TAB, LISTENER}, Meeting());
  }

  lemma InTurn()
    ensures InOrder(Meeting() + [DISCONNECT])
  {
    var es := Meeting() + [DISCONNECT];
    forall j | 0 <= j < 6 ensures Timely(es[..j], es[j]) {
      assert forall i | 0 <= i < j :: es[..j][i] == es[i] && !es[i].req.Unregister?;
      if j >= 3 { assert es[..j][0] == Arrives(TAB) && es[..j][2] == Arrives(LISTENER); }
    }
  }

  lemma MayDisconnect()
    ensures var s := Exec(Fresh(USERS), Meeting());
            && IsRun(Fresh(USERS), Meeting()) && Enabled(s, DISCONNECT) && Disconnects(s, DISCONNECT)
            && ShareRoom(s, TAB, LISTENER) && !SoleClient(s, TAB)
  {
    Meet();
    var s := Exec(Fresh(USERS), Meeting());
    assert ROOM in Joined(s, TAB) * Joined(s, LISTENER);
    assert Elements([ROOM]) == {ROOM} == Joined(s, TAB);
    assert UserOf(s, OTHER_TAB) == UserOf(s, TAB);
  }

  /** An in-order run after which the listener was told that user 7 is offline, and user 7 is no longer marked online,
      although the user's other connection is in the hub. */
  lemma SaidOfflineWhileHere()
    ensures var es := Meeting() + [DISCONNECT];
            && IsRun(Fresh(USERS), es) && InOrder(es)
            && Offline(7) in Mail(Exec(Fresh(USERS), Meeting()), DISCONNECT, LISTENER)
            && 7 in Present(Exec(Fresh(USERS), es)) && 7 !in Marked(USERS, es)
  {
    MayDisconnect();
    InTurn();
    assert LISTENER in USERS;
    RunSnoc(Fresh(USERS), Meeting(), DISCONNECT);
    OfflineNoticeTrueIff(USERS, Meeting(), DISCONNECT, LISTENER);
    NoMark(Meeting(), DISCONNECT);
  }

  lemma NoMark(es: seq<Event<nat>>, e: Event<nat>)
    requires IsRun(Fresh(USERS), es) && Disconnects(Exec(Fresh(USERS), es), e) && e.req.c in USERS
    ensures USERS[e.req.c] !in Marked(USERS, es + [e])
  {
    assert (es + [e])[..|es|] == es;
    assert Exec(Fresh(USERS), es).user == USERS by { RunKeepsIndex(USERS, es); }
  }
}
