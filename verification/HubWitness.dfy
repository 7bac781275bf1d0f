/** Concrete runs: one that consumes everything in order, and two that the separate channels of the hub also allow. */
module HubWitness {
  import opened Domain
  import opened Mailboxes
  import opened HubModel
  import opened HubIndex
  import opened HubAnySchedule
  import opened HubInOrder
  import opened HubVoice

  const NO_CHOICE: Choice<nat> := Choice([], [], [], None)
  const CLIENT: nat := 1
  const USER: map<nat, UserId> := map[CLIENT := 7]
  const ROOM: RoomId := 5

  const REGISTER := Event(Register(CLIENT), NO_CHOICE)
  const VOICE_JOIN := Event(VoiceJoin(CLIENT, ROOM), NO_CHOICE)
  const UNREGISTER_IDLE := Event(Unregister(CLIENT), NO_CHOICE)
  const UNREGISTER_IN_VOICE := Event(Unregister(CLIENT), NO_CHOICE.(voice := [ROOM]))

  /** After the client registered and joined a voice room. */
  lemma InVoice()
    ensures IsRun(Fresh(USER), [REGISTER, VOICE_JOIN])
    ensures var s := Exec(Fresh(USER), [REGISTER, VOICE_JOIN]);
            s.voice == map[ROOM := {CLIENT}] && s.rooms == map[] && s.joined == map[CLIENT := {}]
            && s.clients == {CLIENT} && s.user == USER
  {
    RunSnoc(Fresh(USER), [], REGISTER);
    RunSnoc(Fresh(USER), [REGISTER], VOICE_JOIN);
    assert [] + [REGISTER] == [REGISTER];
    assert [REGISTER] + [VOICE_JOIN] == [REGISTER, VOICE_JOIN];
    var s := Exec(Fresh(USER), [REGISTER]);
    assert s == RegisterStep(Fresh(USER), CLIENT);
    assert InRoom(s.voice, ROOM) == {};
    assert InRoom(s.voice, ROOM) + {CLIENT} == {CLIENT};
    assert s.voice == map[];
  }

  lemma VisitInOrder()
    ensures InOrder([REGISTER, VOICE_JOIN, UNREGISTER_IN_VOICE])
  {
    var es := [REGISTER, VOICE_JOIN, UNREGISTER_IN_VOICE];
    forall j | 0 <= j < |es| ensures Timely(es[..j], es[j]) {
      if j > 0 { assert es[..j][0].req == Register(CLIENT); }
    }
  }

  lemma OnlyClient(es: seq<Event<nat>>)
    requires IsRun(Fresh(USER), es)
    ensures OneConnectionPerUser(USER, es)
  {
    forall k | 0 <= k <= |es| ensures OnePerUser(Exec(Fresh(USER), es[..k])) {
      RunPrefix(Fresh(USER), es, k);
      RunKeepsIndex(USER, es[..k]);
    }
  }

  /** The assumptions about the schedule have a run: a client registers, joins a voice room and disconnects in it. */
  lemma InOrderRunExists()
    ensures var es := [REGISTER, VOICE_JOIN, UNREGISTER_IN_VOICE];
            IsRun(Fresh(USER), es) && InOrder(es) && OneConnectionPerUser(USER, es)
  {
    InVoice();
    RunSnoc(Fresh(USER), [REGISTER, VOICE_JOIN], UNREGISTER_IN_VOICE);
    assert [REGISTER, VOICE_JOIN] + [UNREGISTER_IN_VOICE] == [REGISTER, VOICE_JOIN, UNREGISTER_IN_VOICE];
    assert {ROOM} == Elements([ROOM]);
    VisitInOrder();
    OnlyClient([REGISTER, VOICE_JOIN, UNREGISTER_IN_VOICE]);
  }

  /** After the client registered and unregistered. */
  lemma Departed()
    ensures IsRun(Fresh(USER), [REGISTER, UNREGISTER_IDLE])
    ensures var s := Exec(Fresh(USER), [REGISTER, UNREGISTER_IDLE]);
            && s.user == USER && s.clients == {} && CLIENT in s.box && s.box[CLIENT].closed
            && InRoom(s.voice, ROOM) == {} && s.box.Keys == {CLIENT} && Lawful(s.box[CLIENT])
  {
    RunSnoc(Fresh(USER), [], REGISTER);
    RunSnoc(Fresh(USER), [REGISTER], UNREGISTER_IDLE);
    assert [] + [REGISTER] == [REGISTER];
    assert [REGISTER] + [UNREGISTER_IDLE] == [REGISTER, UNREGISTER_IDLE];
    var s1 := Exec(Fresh(USER), [REGISTER]);
    assert s1 == RegisterStep(Fresh(USER), CLIENT);
    UnregisterMail(s1, CLIENT, [], [], CLIENT);
    UnregisterRooms(s1, CLIENT, [], []);
    RunKeepsIndex(USER, [REGISTER, UNREGISTER_IDLE]);
  }

  /** A run that consumes a client's voice_join after its unregister: the hub sends on the closed queue. */
  lemma LateEnvelopePanics()
    ensures var es := [REGISTER, UNREGISTER_IDLE, VOICE_JOIN];
            && IsRun(Fresh(USER), es) && RegistersOnce(es) && !InOrder(es)
            && CLIENT in Exec(Fresh(USER), es).box && Exec(Fresh(USER), es).box[CLIENT].sentWhenClosed
  {
    var es := [REGISTER, UNREGISTER_IDLE, VOICE_JOIN];
    Departed();
    RunSnoc(Fresh(USER), [REGISTER, UNREGISTER_IDLE], VOICE_JOIN);
    assert [REGISTER, UNREGISTER_IDLE] + [VOICE_JOIN] == es;
    LateJoinPanics(Exec(Fresh(USER), [REGISTER, UNREGISTER_IDLE]));
    LateJoinIsLate();
  }

  lemma LateJoinPanics(s: HubState<nat>)
    requires s.user == USER && s.clients == {} && CLIENT in s.box && s.box[CLIENT].closed && Lawful(s.box[CLIENT])
    requires InRoom(s.voice, ROOM) == {}
    ensures Enabled(s, VOICE_JOIN)
    ensures CLIENT in Step(s, VOICE_JOIN).box && Step(s, VOICE_JOIN).box[CLIENT].sentWhenClosed
  {
    assert InRoom(s.voice, ROOM) - {CLIENT} == {} == Elements<nat>([]);
    StepMail(s, VOICE_JOIN, CLIENT);
    OfferSeqEffect(s.box[CLIENT], Mail(s, VOICE_JOIN, CLIENT));
  }

  lemma LateJoinIsLate()
    ensures var es := [REGISTER, UNREGISTER_IDLE, VOICE_JOIN]; RegistersOnce(es) && !InOrder(es)
  {
    var es := [REGISTER, UNREGISTER_IDLE, VOICE_JOIN];
    assert !Timely(es[..2], es[2]) by { assert es[..2][1].req == Unregister(CLIENT); }
  }

  /** A run that consumes the unregister first: it is ignored, and the late register leaves the client in the hub
      with an open queue nobody will close. */
  lemma EarlyUnregisterIsLost()
    ensures var es := [UNREGISTER_IDLE, REGISTER];
            && IsRun(Fresh(USER), es) && !InOrder(es)
            && var s := Exec(Fresh(USER), es);
               CLIENT in s.clients && CLIENT in s.box && !s.box[CLIENT].closed
  {
    var es := [UNREGISTER_IDLE, REGISTER];
    RunSnoc(Fresh(USER), [], UNREGISTER_IDLE);
    RunSnoc(Fresh(USER), [UNREGISTER_IDLE], REGISTER);
    assert [] + [UNREGISTER_IDLE] == [UNREGISTER_IDLE];
    assert [UNREGISTER_IDLE] + [REGISTER] == es;
    assert !Timely(es[..0], es[0]);
  }

  /** Under any schedule: an event panics on d's queue exactly when the queue is closed and the event has mail for d. */
  lemma PanicsExactly<C>(user: map<C, UserId>, es: seq<Event<C>>, e: Event<C>, d: C)
    requires IsRun(Fresh(user), es + [e]) && d in user
    ensures var s, s' := Exec(Fresh(user), es), Exec(Fresh(user), es + [e]);
            && d in s.box && d in s'.box
            && (s'.box[d].sentWhenClosed <==> s.box[d].sentWhenClosed || (s.box[d].closed && Mail(s, e, d) != []))
  {
    RunSnoc(Fresh(user), es, e);
    RunKeepsIndex(user, es);
    var s := Exec(Fresh(user), es);
    StepMail(s, e, d);
    OfferSeqEffect(s.box[d], Mail(s, e, d));
  }
}
