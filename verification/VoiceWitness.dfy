/** Two connections of one user in a voice room: when one of them parts, the others are told that the user left. */
module VoiceWitness {
  import opened Domain
  import opened Mailboxes
  import opened HubModel
  import opened HubIndex
  import opened HubAnySchedule
  import opened HubInOrder
  import opened HubVoice

  const TAB: nat := 1
  const OTHER_TAB: nat := 2
  const LISTENER: nat := 3
  const USERS: map<nat, UserId> := map[TAB := 7, OTHER_TAB := 7, LISTENER := 8]
  const ROOM: RoomId := 5

  ghost function Arrives(c: nat): Event<nat> {
    Event(Register(c), Choice([], [], [], None))
  }

  ghost function Enters(c: nat, peers: seq<nat>): Event<nat> {
    Event(VoiceJoin(c, ROOM), Choice([], [], peers, None))
  }

  const LEAVE: Event<nat> := Event(VoiceLeave(TAB, ROOM), Choice([], [], [], None))
  const DISCONNECT: Event<nat> := Event(Unregister(TAB), Choice([], [ROOM], [], None))

  ghost function Gathering(): seq<Event<nat>> {
    [Arrives(TAB), Arrives(OTHER_TAB), Arrives(LISTENER),
     Enters(TAB, []), Enters(OTHER_TAB, [TAB]), Enters(LISTENER, [TAB, OTHER_TAB])]
  }

  /** After `es`: who is in the hub and who in the voice room. */
  ghost predicate Reached(es: seq<Event<nat>>, clients: set<nat>, voice: set<nat>) {
    && IsRun(Fresh(USERS), es)
    && var s := Exec(Fresh(USERS), es);
       && s.user == USERS && s.clients == clients && InRoom(s.voice, ROOM) == voice && s.voice.Keys <= {ROOM}
       && s.joined == map[TAB := {}, OTHER_TAB := {}, LISTENER := {}]
  }

  lemma MoreArrive(es: seq<Event<nat>>, clients: set<nat>, voice: set<nat>, c: nat)
    requires Reached(es, clients, voice) && c in USERS
    ensures Reached(es + [Arrives(c)], clients + {c}, voice)
  {
    RunSnoc(Fresh(USERS), es, Arrives(c));
  }

  lemma MoreEnter(es: seq<Event<nat>>, clients: set<nat>, voice: set<nat>, c: nat, peers: seq<nat>)
    requires Reached(es, clients, voice) && c in USERS && c !in voice && Enumerates(peers, voice)
    ensures Reached(es + [Enters(c, peers)], clients, voice + {c})
  {
    RunSnoc(Fresh(USERS), es, Enters(c, peers));
    assert voice - {c} == voice;
    VoiceJoinFrame(Exec(Fresh(USERS), es), c, ROOM, peers);
  }

  ghost function Registered(): seq<Event<nat>> {
    [Arrives(TAB), Arrives(OTHER_TAB), Arrives(LISTENER)]
  }

  lemma AllArrive()
    ensures Reached(Registered(), {TAB, OTHER_TAB, LISTENER}, {})
  {
    MoreArrive([], {}, {}, TAB);
    MoreArrive([] + [Arrives(TAB)], {} + {TAB}, {}, OTHER_TAB);
    MoreArrive([] + [Arrives(TAB)] + [Arrives(OTHER_TAB)], {} + {TAB} + {OTHER_TAB}, {}, LISTENER);
    assert {} + {TAB} + {OTHER_TAB} + {LISTENER} == {TAB, OTHER_TAB, LISTENER};
    assert [] + [Arrives(TAB)] + [Arrives(OTHER_TAB)] + [Arrives(LISTENER)] == Registered();
  }

  lemma TabsEnter(es: seq<Event<nat>>, clients: set<nat>)
    requires Reached(es, clients, {})
    ensures Reached(es + [Enters(TAB, [])] + [Enters(OTHER_TAB, [TAB])], clients, {TAB, OTHER_TAB})
  {
    MoreEnter(es, clients, {}, TAB, []);
    MoreEnter(es + [Enters(TAB, [])], clients, {} + {TAB}, OTHER_TAB, [TAB]);
    assert {} + {TAB} + {OTHER_TAB} == {TAB, OTHER_TAB};
  }

  lemma AllEnter(es: seq<Event<nat>>, clients: set<nat>)
    requires Reached(es, clients, {})
    ensures Reached(es + [Enters(TAB, []), Enters(OTHER_TAB, [TAB]), Enters(LISTENER, [TAB, OTHER_TAB])],
                    clients, {TAB, OTHER_TAB, LISTENER})
  {
    var v1, v2, v3 := Enters(TAB, []), Enters(OTHER_TAB, [TAB]), Enters(LISTENER, [TAB, OTHER_TAB]);
    TabsEnter(es, clients);
    ListenerEnters(es + [v1] + [v2], clients, es + [v1, v2, v3]);
  }

  lemma ListenerEnters(es: seq<Event<nat>>, clients: set<nat>, es': seq<Event<nat>>)
    requires Reached(es, clients, {TAB, OTHER_TAB}) && es' == es + [Enters(LISTENER, [TAB, OTHER_TAB])]
    ensures Reached(es', clients, {TAB, OTHER_TAB, LISTENER})
  {
    assert Elements([TAB, OTHER_TAB]) == {TAB, OTHER_TAB};
    MoreEnter(es, clients, {TAB, OTHER_TAB}, LISTENER, [TAB, OTHER_TAB]);
    assert {TAB, OTHER_TAB} + {LISTENER} == {TAB, OTHER_TAB, LISTENER};
  }

  lemma AllGather()
    ensures Reached(Gathering(), {TAB, OTHER_TAB, LISTENER}, {TAB, OTHER_TAB, LISTENER})
  {
    AllArrive();
    AllEnter(Registered(), {TAB, OTHER_TAB, LISTENER});
    assert Registered() + [Enters(TAB, []), Enters(OTHER_TAB, [TAB]), Enters(LISTENER, [TAB, OTHER_TAB])]
        == Gathering();
  }

  lemma GatheringInOrder(e: Event<nat>)
    requires e == LEAVE || e == DISCONNECT
    ensures InOrder(Gathering() + [e])
  {
    var es := Gathering() + [e];
    forall j | 0 <= j < 7 ensures Timely(es[..j], es[j]) {
      assert forall i | 0 <= i < j :: es[..j][i] == es[i] && !es[i].req.Unregister?;
      if j >= 3 {
        assert es[..j][0] == Arrives(TAB) && es[..j][1] == Arrives(OTHER_TAB) && es[..j][2] == Arrives(LISTENER);
      }
    }
  }

  lemma NobodyParts(es: seq<Event<nat>>)
    requires forall e <- es :: !e.req.VoiceLeave? && !e.req.Unregister?
    ensures PartsAlone(USERS, es, ROOM, LISTENER)
  {}

  lemma InOrderButLast(es: seq<Event<nat>>, e: Event<nat>)
    requires InOrder(es + [e])
    ensures InOrder(es)
  {
    InOrderPrefix(es + [e], |es|);
    assert (es + [e])[..|es|] == es;
  }

  /** While nobody has parted, the listener's view is right. */
  lemma ListenerAgrees()
    ensures Agrees(Exec(Fresh(USERS), Gathering()), ROOM, LISTENER)
  {
    AllGather();
    GatheringInOrder(LEAVE);
    InOrderButLast(Gathering(), LEAVE);
    NobodyParts(Gathering());
    RunKeepsView(USERS, Gathering(), ROOM, LISTENER);
  }

  lemma WhoIsLeft(s: HubState<nat>, e: Event<nat>)
    requires s.user == USERS && TAB in s.clients && TAB in s.joined
    requires InRoom(s.voice, ROOM) == {TAB, OTHER_TAB, LISTENER}
    requires (e == LEAVE || e == DISCONNECT) && Enabled(s, e)
    ensures Others(Step(s, e), ROOM, LISTENER) == {7}
  {
    if e == LEAVE { VoiceLeaveFrame(s, TAB, ROOM); } else { UnregisterRooms(s, TAB, [], [ROOM]); }
    var s' := Step(s, e);
    assert InRoom(s'.voice, ROOM) == {OTHER_TAB, LISTENER} && s'.user == USERS;
  }

  lemma MayPart(e: Event<nat>)
    requires e == LEAVE || e == DISCONNECT
    ensures var s := Exec(Fresh(USERS), Gathering());
            Enabled(s, e) && PartsFrom(s, e, ROOM) && !SoleConnection(s, ROOM, TAB, LISTENER)
  {
    AllGather();
    var s := Exec(Fresh(USERS), Gathering());
    assert s.voice.Keys == {ROOM} == Elements([ROOM]);
    assert UserOf(s, OTHER_TAB) == UserOf(s, TAB);
  }

  /** When a connection of user 7 leaves or disconnects, the listener believes that user 7 is gone, although the other
      connection is still there. */
  lemma OtherTabForgotten(e: Event<nat>)
    requires e == LEAVE || e == DISCONNECT
    ensures var es := Gathering() + [e];
            && IsRun(Fresh(USERS), es) && InOrder(es)
            && LISTENER in InRoom(Exec(Fresh(USERS), es).voice, ROOM)
            && Others(Exec(Fresh(USERS), es), ROOM, LISTENER) == {7}
            && !Agrees(Exec(Fresh(USERS), es), ROOM, LISTENER)
  {
    AllGather();
    ListenerAgrees();
    MayPart(e);
    GatheringInOrder(e);
    RunSnoc(Fresh(USERS), Gathering(), e);
    PartingKeepsViewIff(USERS, Gathering(), e, ROOM, LISTENER);
    WhoIsLeft(Exec(Fresh(USERS), Gathering()), e);
  }
}
