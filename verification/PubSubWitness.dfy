/** A run of the whole server in which a client joins a room, leaves it, joins it again and is then offered one
    published message twice: the first Unsubscribe came before the subscription it was meant for was stored. */
module PubSubWitness {
  import opened Domain
  import opened Mailboxes
  import opened HubModel
  import opened HubIndex
  import opened HubAnySchedule
  import opened HubInOrder
  import opened PubSubModel
  import opened HubPubSub

  const CLIENT: nat := 1
  const USER: map<nat, UserId> := map[CLIENT := 7]
  const ROOM: RoomId := 5
  const DATA: nat := 42

  const REGISTER: Event<nat> := Event(Register(CLIENT), Choice([], [], [], None))
  const JOIN: Event<nat> := Event(JoinRoom(CLIENT, ROOM, Found(Public, 7, false)), Choice([], [], [CLIENT], None))
  const LEAVE: Event<nat> := Event(LeaveRoom(CLIENT, ROOM), Choice([], [], [], None))

  // ---------- The hub ----------

  ghost predicate IsOut(h: HubState<nat>) {
    h.user == USER && h.clients == {CLIENT} && h.rooms == map[] && h.joined == map[CLIENT := {}]
  }

  ghost predicate IsIn(h: HubState<nat>) {
    h.user == USER && h.clients == {CLIENT} && h.rooms == map[ROOM := {CLIENT}] && h.joined == map[CLIENT := {ROOM}]
  }

  lemma Registers()
    ensures Enabled(Fresh(USER), REGISTER) && IsOut(Step(Fresh(USER), REGISTER))
            && NewCalls(Fresh(USER), REGISTER) == []
  {}

  lemma Joins(h: HubState<nat>)
    requires IsOut(h)
    ensures Enabled(h, JOIN) && IsIn(Step(h, JOIN)) && NewCalls(h, JOIN) == [Subscribe(ROOM)]
  {
    assert InRoom(h.rooms, ROOM) + {CLIENT} == {CLIENT};
    assert {CLIENT} == Elements([CLIENT]);
    assert Joined(h, CLIENT) + {ROOM} == {ROOM};
  }

  lemma Leaves(h: HubState<nat>)
    requires IsIn(h)
    ensures Enabled(h, LEAVE) && IsOut(Step(h, LEAVE)) && NewCalls(h, LEAVE) == [Unsubscribe(ROOM)]
  {
    assert h.rooms[ROOM] - {CLIENT} == {} && Joined(h, CLIENT) - {ROOM} == {};
  }

  lemma Hears(h: HubState<nat>, copy: Copy)
    requires IsIn(h)
    ensures Enabled(h, Delivery(copy)) && IsIn(Step(h, Delivery(copy))) && NewCalls(h, Delivery(copy)) == []
  {}

  /** A client's run of joins, leaves and deliveries after its register is in order. */
  lemma InOrderAfterRegister(es: seq<Event<nat>>)
    requires es != [] && es[0] == REGISTER
    requires forall j | 0 < j < |es| :: es[j] == JOIN || es[j] == LEAVE || es[j].req.Broadcast?
    ensures InOrder(es)
  {
    forall j | 0 <= j < |es| ensures Timely(es[..j], es[j]) {
      if j > 0 { assert es[..j][0].req == Register(CLIENT); }
    }
  }

  // ---------- The system ----------

  ghost function At(h: HubState<nat>, ps: PubSub, due: seq<Call>): System<nat> {
    System(h, ps, due, map[])
  }

  const FIRST := Copy(ROOM, 0, DATA)
  const SECOND := Copy(ROOM, 1, DATA)

  const MOVES: seq<Move<nat>> :=
    [HandleEvent(REGISTER), HandleEvent(JOIN), MakeCall, HandleEvent(LEAVE), MakeCall, Stored(0),
     HandleEvent(JOIN), MakeCall, Stored(1), PublishOutside(ROOM, DATA), Forward(0), Forward(1)]

  /** The six states of the hub after its events. */
  datatype Stages = Stages(h1: HubState<nat>, h2: HubState<nat>, h3: HubState<nat>, h4: HubState<nat>,
                           h5: HubState<nat>, h6: HubState<nat>)

  ghost predicate Fits(hs: Stages) {
    IsOut(hs.h1) && IsIn(hs.h2) && IsOut(hs.h3) && IsIn(hs.h4) && IsIn(hs.h5) && IsIn(hs.h6)
  }

  ghost function States(hs: Stages): (ys: seq<System<nat>>)
    ensures |ys| == 13
  {
    [Starting(USER), At(hs.h1, EMPTY_PUBSUB, []), At(hs.h2, EMPTY_PUBSUB, [Subscribe(ROOM)]),
     At(hs.h2, Waiting(ROOM), []), At(hs.h3, Waiting(ROOM), [Unsubscribe(ROOM)]), At(hs.h3, Missed(ROOM), []),
     At(hs.h3, StoredLate(ROOM), []), At(hs.h4, StoredLate(ROOM), [Subscribe(ROOM)]), At(hs.h4, Reopened(ROOM), []),
     At(hs.h4, Doubled(ROOM), []), System(hs.h4, Doubled(ROOM), [], map[0 := [FIRST], 1 := [SECOND]]),
     System(hs.h5, Doubled(ROOM), [], map[0 := [], 1 := [SECOND]]),
     System(hs.h6, Doubled(ROOM), [], map[0 := [], 1 := []])]
  }

  ghost predicate Leads(y: System<nat>, m: Move<nat>, y': System<nat>) {
    Possible(y, m) && y' == Next(y, m)
  }

  lemma NoneCloses(ps: PubSub)
    requires forall id | 0 <= id < |ps.handles| :: ps.handles[id].phase != Closing
    ensures !Closes(ps)
  {}

  lemma HandleLeads(h: HubState<nat>, ps: PubSub, e: Event<nat>, h': HubState<nat>, due: seq<Call>)
    requires Enabled(h, e) && !e.req.Broadcast? && h' == Step(h, e) && due == NewCalls(h, e)
    requires forall id | 0 <= id < |ps.handles| :: ps.handles[id].phase != Closing
    ensures Leads(At(h, ps, []), HandleEvent(e), At(h', ps, due))
  {
    NoneCloses(ps);
  }

  lemma CallLeads(h: HubState<nat>, ps: PubSub, call: Call, ps': PubSub)
    requires !call.Publish? && ps' == PsNext(ps, PsStepOf(call)[0])
    requires forall id | 0 <= id < |ps.handles| :: ps.handles[id].phase != Closing
    ensures Leads(At(h, ps, [call]), MakeCall, At(h, ps', []))
  {
    NoneCloses(ps);
  }

  lemma StoreLeads(h: HubState<nat>, ps: PubSub, id: SubId, ps': PubSub)
    requires PsEnabled(ps, Store(id)) && ps' == StoreStep(ps, id)
    ensures Leads(At(h, ps, []), Stored(id), At(h, ps', []))
  {}

  lemma PublishLeads(h: HubState<nat>)
    ensures Leads(At(h, Doubled(ROOM), []), PublishOutside(ROOM, DATA),
            System(h, Doubled(ROOM), [], map[0 := [FIRST], 1 := [SECOND]]))
  {
    var y := At(h, Doubled(ROOM), []);
    assert Receivers(Doubled(ROOM), ROOM) == {0, 1};
    assert Queue(y, 0) + Handed(Doubled(ROOM), ROOM, DATA, 0) == [FIRST];
    assert Queue(y, 1) + Handed(Doubled(ROOM), ROOM, DATA, 1) == [SECOND];
    assert Published(y, ROOM, DATA) == map[0 := [FIRST], 1 := [SECOND]];
  }

  lemma ForwardLeads(y: System<nat>, id: SubId, copy: Copy, h': HubState<nat>, flight': map<SubId, seq<Copy>>)
    requires y.ps == Doubled(ROOM) && y.due == [] && id in y.flight && y.flight[id] == [copy]
    requires h' == Step(y.hub, Delivery(copy)) && flight' == y.flight[id := []]
    ensures Leads(y, Forward(id), System(h', Doubled(ROOM), [], flight'))
  {
    NoneCloses(Doubled(ROOM));
    assert [copy][1..] == [];
  }

  lemma TheStages() returns (hs: Stages)
    ensures Fits(hs)
    ensures hs.h1 == Step(Fresh(USER), REGISTER) && hs.h2 == Step(hs.h1, JOIN) && hs.h3 == Step(hs.h2, LEAVE)
    ensures hs.h4 == Step(hs.h3, JOIN) && hs.h5 == Step(hs.h4, Delivery(FIRST))
            && hs.h6 == Step(hs.h5, Delivery(SECOND))
  {
    var h1 := Step(Fresh(USER), REGISTER);
    Registers();
    var h2 := Step(h1, JOIN);
    Joins(h1);
    var h3 := Step(h2, LEAVE);
    Leaves(h2);
    var h4 := Step(h3, JOIN);
    Joins(h3);
    var h5 := Step(h4, Delivery(FIRST));
    Hears(h4, FIRST);
    Hears(h5, SECOND);
    hs := Stages(h1, h2, h3, h4, h5, Step(h5, Delivery(SECOND)));
  }

  lemma MissingItsStore(hs: Stages)
    requires Fits(hs) && hs.h1 == Step(Fresh(USER), REGISTER) && hs.h2 == Step(hs.h1, JOIN)
             && hs.h3 == Step(hs.h2, LEAVE)
    ensures forall i | 0 <= i < 6 :: Leads(States(hs)[i], MOVES[i], States(hs)[i + 1])
  {
    LateSteps(ROOM);
    Registers();
    HandleLeads(Fresh(USER), EMPTY_PUBSUB, REGISTER, hs.h1, []);
    Joins(hs.h1);
    HandleLeads(hs.h1, EMPTY_PUBSUB, JOIN, hs.h2, [Subscribe(ROOM)]);
    CallLeads(hs.h2, EMPTY_PUBSUB, Subscribe(ROOM), Waiting(ROOM));
    Leaves(hs.h2);
    HandleLeads(hs.h2, Waiting(ROOM), LEAVE, hs.h3, [Unsubscribe(ROOM)]);
    CallLeads(hs.h3, Waiting(ROOM), Unsubscribe(ROOM), Missed(ROOM));
    StoreLeads(hs.h3, Missed(ROOM), 0, StoredLate(ROOM));
  }

  lemma Reopening(hs: Stages)
    requires Fits(hs) && hs.h4 == Step(hs.h3, JOIN)
    ensures forall i | 6 <= i < 9 :: Leads(States(hs)[i], MOVES[i], States(hs)[i + 1])
  {
    LateSteps(ROOM);
    Joins(hs.h3);
    HandleLeads(hs.h3, StoredLate(ROOM), JOIN, hs.h4, [Subscribe(ROOM)]);
    CallLeads(hs.h4, StoredLate(ROOM), Subscribe(ROOM), Reopened(ROOM));
    StoreLeads(hs.h4, Reopened(ROOM), 1, Doubled(ROOM));
  }

  lemma Delivering(hs: Stages)
    requires Fits(hs) && hs.h5 == Step(hs.h4, Delivery(FIRST)) && hs.h6 == Step(hs.h5, Delivery(SECOND))
    ensures forall i | 9 <= i < 12 :: Leads(States(hs)[i], MOVES[i], States(hs)[i + 1])
  {
    PublishLeads(hs.h4);
    ForwardLeads(States(hs)[10], 0, FIRST, hs.h5, map[0 := [], 1 := [SECOND]]);
    ForwardLeads(States(hs)[11], 1, SECOND, hs.h6, map[0 := [], 1 := []]);
  }

  lemma TheRun() returns (hs: Stages)
    ensures Fits(hs) && IsSystemRun(USER, States(hs), MOVES)
  {
    hs := TheStages();
    MissingItsStore(hs);
    Reopening(hs);
    Delivering(hs);
    forall i: nat | i < |MOVES| ensures Follows(States(hs), MOVES, i) {
      assert Leads(States(hs)[i], MOVES[i], States(hs)[i + 1]);
    }
  }

  lemma {:induction false} QuietMoves<C>(ys: seq<System<C>>, ms: seq<Move<C>>, m: nat, n: nat, r: RoomId, data: nat)
    requires m <= n <= |ms| <= |ys| && forall k | m <= k < n :: !Publishes(ys[k], ms[k], r, data)
    ensures Publications(ys, ms, n, r, data) == Publications(ys, ms, m, r, data)
    decreases n
  {
    if m < n { QuietMoves(ys, ms, m, n - 1, r, data); }
  }

  lemma PublishedOnce(hs: Stages)
    ensures Publishes(States(hs)[9], MOVES[9], ROOM, DATA) && Publications(States(hs), MOVES, 12, ROOM, DATA) == 1
  {
    QuietMoves(States(hs), MOVES, 0, 9, ROOM, DATA);
    QuietMoves(States(hs), MOVES, 10, 12, ROOM, DATA);
  }

  lemma OneMoreEvent(hs: Stages, n: nat, es: seq<Event<nat>>, es': seq<Event<nat>>)
    requires n < 12 && HubEvents(States(hs), MOVES, n) == es && es' == es + HubPart(States(hs)[n], MOVES[n])
    ensures HubEvents(States(hs), MOVES, n + 1) == es'
  {}

  lemma EarlyEvents(hs: Stages)
    ensures HubEvents(States(hs), MOVES, 6) == [REGISTER, JOIN, LEAVE]
  {
    OneMoreEvent(hs, 0, [], [REGISTER]);
    OneMoreEvent(hs, 1, [REGISTER], [REGISTER, JOIN]);
    OneMoreEvent(hs, 2, [REGISTER, JOIN], [REGISTER, JOIN]);
    OneMoreEvent(hs, 3, [REGISTER, JOIN], [REGISTER, JOIN, LEAVE]);
    OneMoreEvent(hs, 4, [REGISTER, JOIN, LEAVE], [REGISTER, JOIN, LEAVE]);
    OneMoreEvent(hs, 5, [REGISTER, JOIN, LEAVE], [REGISTER, JOIN, LEAVE]);
  }

  lemma LateEvents(hs: Stages, es: seq<Event<nat>>)
    requires HubEvents(States(hs), MOVES, 6) == es
    ensures HubEvents(States(hs), MOVES, 12) == es + [JOIN, Delivery(FIRST), Delivery(SECOND)]
  {
    var joined := es + [JOIN];
    OneMoreEvent(hs, 6, es, joined);
    OneMoreEvent(hs, 7, joined, joined);
    OneMoreEvent(hs, 8, joined, joined);
    OneMoreEvent(hs, 9, joined, joined);
    OneMoreEvent(hs, 10, joined, joined + [Delivery(FIRST)]);
    OneMoreEvent(hs, 11, joined + [Delivery(FIRST)], es + [JOIN, Delivery(FIRST), Delivery(SECOND)]);
  }

  lemma EventsInOrder(hs: Stages)
    ensures InOrder(HubEvents(States(hs), MOVES, 12))
  {
    EarlyEvents(hs);
    LateEvents(hs, [REGISTER, JOIN, LEAVE]);
    InOrderAfterRegister([REGISTER, JOIN, LEAVE] + [JOIN, Delivery(FIRST), Delivery(SECOND)]);
  }

  lemma BothPassedOn(hs: Stages)
    requires IsSystemRun(USER, States(hs), MOVES)
    ensures AllPassedOn(States(hs), MOVES, 9, ROOM, DATA)
  {
    PublishedOnce(hs);
    forall id <- Receivers(Doubled(ROOM), ROOM) ensures Times(States(hs), MOVES, 12, Copy(ROOM, id, DATA)) == 1 {
      ReceivedAtPublication(States(hs), MOVES, 12, 9, Copy(ROOM, id, DATA));
      CopiesConserved(USER, States(hs), MOVES, 12, Copy(ROOM, id, DATA));
      assert Queue(States(hs)[12], id) == [];
    }
  }

  lemma InTheRoom(hs: Stages)
    requires Fits(hs)
    ensures Present(States(hs), MOVES, 12, CLIENT, ROOM, DATA)
  {
    forall k | 0 <= k < 12 && Brings(States(hs)[k], MOVES[k], ROOM, DATA)
      ensures CLIENT in InRoom(States(hs)[k].hub.rooms, ROOM)
    {
      assert k == 10 || k == 11;
    }
  }

  /** One publication, two offers to a client that was in the room all the time the message was under way. */
  lemma OneMessageTwice() returns (ys: seq<System<nat>>)
    ensures IsSystemRun(USER, ys, MOVES) && InOrder(HubEvents(ys, MOVES, 12))
    ensures Publications(ys, MOVES, 12, ROOM, DATA) == 1
    ensures Offers(ys[12].hub, CLIENT, ROOM, DATA) == 2
  {
    var hs := TheRun();
    ys := States(hs);
    EventsInOrder(hs);
    PublishedOnce(hs);
    BothPassedOn(hs);
    InTheRoom(hs);
    LateSteps(ROOM);
    OfferedPerSubscription(USER, ys, MOVES, 9, ROOM, DATA, CLIENT);
    assert |{0, 1}| == 2;
  }
}
