/** What becomes of a client's requests: which messages are published, and who is answered what. */
module HubMessages {
  import opened Domain
  import opened Mailboxes
  import opened HubModel
  import opened HubIndex
  import opened HubAnySchedule

  // ---------- Saved messages are published ----------

  /** The publications among the calls on the broadcaster. */
  ghost function PublishCalls(calls: seq<Call>): seq<Call> {
    if calls == [] then []
    else PublishCalls(calls[..|calls| - 1]) + if calls[|calls| - 1].Publish? then [calls[|calls| - 1]] else []
  }

  /** The messages clients sent and the store saved, in order. */
  ghost function SavedMessages<C>(reqs: seq<Request<C>>): seq<(RoomId, nat)> {
    if reqs == [] then []
    else SavedMessages(reqs[..|reqs| - 1]) + SavedBy(reqs[|reqs| - 1])
  }

  ghost function SavedBy<C>(req: Request<C>): seq<(RoomId, nat)> {
    if req.Chat? && req.saved then [(req.room, req.data)] else []
  }

  ghost function PublishAll(messages: seq<(RoomId, nat)>): seq<Call> {
    seq(|messages|, i requires 0 <= i < |messages| => Publish(messages[i].0, messages[i].1))
  }

  lemma PublishSnoc(calls: seq<Call>, call: Call)
    ensures PublishCalls(calls + [call]) == PublishCalls(calls) + if call.Publish? then [call] else []
  {
    assert (calls + [call])[..|calls|] == calls;
  }

  lemma LeavePublishes<C>(s: HubState<C>, c: C, r: RoomId)
    ensures PublishCalls(LeaveStep(s, c, r).calls) == PublishCalls(s.calls)
  {
    PublishSnoc(s.calls, Unsubscribe(r));
    LeaveParts(s, c, r);
  }

  lemma JoinPublishes<C>(s: HubState<C>, c: C, r: RoomId, lookup: Lookup, order: seq<C>)
    ensures PublishCalls(JoinStep(s, c, r, lookup, order).calls) == PublishCalls(s.calls)
  {
    PublishSnoc(s.calls, Subscribe(r));
  }

  lemma {:induction false} LeaveAllPublishes<C>(s: HubState<C>, c: C, order: seq<RoomId>)
    ensures PublishCalls(LeaveAll(s, c, order).calls) == PublishCalls(s.calls)
    decreases |order|
  {
    if order != [] {
      LeaveAllPublishes(s, c, order[..|order| - 1]);
      LeavePublishes(LeaveAll(s, c, order[..|order| - 1]), c, order[|order| - 1]);
    }
  }

  lemma UnregisterPublishes<C>(s: HubState<C>, c: C, rooms: seq<RoomId>, voice: seq<RoomId>)
    ensures PublishCalls(UnregisterStep(s, c, rooms, voice).calls) == PublishCalls(s.calls)
  {
    LeaveAllPublishes(Disconnect(s, c), c, rooms);
    VoiceLeaveAllFrame(LeaveAll(Disconnect(s, c), c, rooms), c, voice);
  }

  lemma OthersPublishNothing<C>(s: HubState<C>, e: Event<C>)
    requires !(e.req.Chat? && e.req.saved)
    ensures PublishCalls(Step(s, e).calls) == PublishCalls(s.calls)
  {
    if MailOnly(e.req) || e.req.WriterTakes? { OnlyQueues(s, e); }
    else if e.req.JoinRoom? { JoinPublishes(s, e.req.c, e.req.room, e.req.lookup, e.choice.peers); }
    else if e.req.LeaveRoom? { LeavePublishes(s, e.req.c, e.req.room); }
    else if e.req.VoiceLeave? { VoiceLeaveFrame(s, e.req.c, e.req.room); }
    else if e.req.VoiceJoin? { VoiceJoinFrame(s, e.req.c, e.req.room, e.choice.peers); }
    else if e.req.Unregister? { UnregisterPublishes(s, e.req.c, e.choice.rooms, e.choice.voice); }
  }

  lemma ChatPublishes<C>(s: HubState<C>, e: Event<C>)
    requires e.req.Chat? && e.req.saved
    ensures Step(s, e) == s.(calls := s.calls + [Publish(e.req.room, e.req.data)])
  {}

  lemma PublishOneMore(messages: seq<(RoomId, nat)>, more: seq<(RoomId, nat)>)
    ensures PublishAll(messages + more) == PublishAll(messages) + PublishAll(more)
  {}

  lemma StepPublishes<C>(s: HubState<C>, e: Event<C>)
    ensures PublishCalls(Step(s, e).calls) == PublishCalls(s.calls) + PublishAll(SavedBy(e.req))
  {
    if e.req.Chat? && e.req.saved {
      ChatPublishes(s, e);
      PublishSnoc(s.calls, Publish(e.req.room, e.req.data));
      assert PublishAll(SavedBy(e.req)) == [Publish(e.req.room, e.req.data)];
    } else {
      OthersPublishNothing(s, e);
    }
  }

  /** The hub publishes every saved message once, to its room, in the order in which it handles them, and nothing else:
      not the messages whose save failed, nor anything on its own account. */
  lemma {:induction false} SavedMessagesPublished<C>(user: map<C, UserId>, es: seq<Event<C>>)
    ensures PublishCalls(Exec(Fresh(user), es).calls) == PublishAll(SavedMessages(Requests(es)))
    decreases |es|
  {
    if es != [] {
      var before, e := es[..|es| - 1], es[|es| - 1];
      SavedMessagesPublished(user, before);
      StepPublishes(Exec(Fresh(user), before), e);
      RequestsOneMore(es);
      PublishOneMore(SavedMessages(Requests(before)), SavedBy(e.req));
    }
  }

  lemma RequestsOneMore<C>(es: seq<Event<C>>)
    requires es != []
    ensures SavedMessages(Requests(es)) == SavedMessages(Requests(es[..|es| - 1])) + SavedBy(es[|es| - 1].req)
  {
    var before := Requests(es[..|es| - 1]);
    assert (before + [es[|es| - 1].req])[..|before|] == before;
  }

  // ---------- Refused joins ----------

  /** A join that is refused, of a client that is not in the room: the client is offered room_not_found if the lookup
      found no room and forbidden otherwise; nobody else is offered anything and nothing else changes. */
  lemma RefusedJoinerIsTold<C>(user: map<C, UserId>, es: seq<Event<C>>, e: Event<C>, d: C)
    requires IsRun(Fresh(user), es + [e]) && e.req.JoinRoom? && d in user && e.req.c in user
    requires e.req.c !in InRoom(Exec(Fresh(user), es).rooms, e.req.room) && !MayEnter(e.req.lookup, user[e.req.c])
    ensures var s, s' := Exec(Fresh(user), es), Exec(Fresh(user), es + [e]);
            var told := if e.req.lookup.Missing? then [Failure(RoomNotFound)] else [Failure(Forbidden)];
            && Mail(s, e, d) == (if d == e.req.c then told else [])
            && d in s.box && d in s'.box && s'.box[d] == OfferSeq(s.box[d], if d == e.req.c then told else [])
            && s'.(box := s.box) == s
  {
    RunSnoc(Fresh(user), es, e);
    var s := Exec(Fresh(user), es);
    assert Index(s) && s.user == user && d in s.box by { RunKeepsIndex(user, es); }
    MembershipByJoined(s, e.req.c, e.req.room);
    StepMail(s, e, d);
    RefusalChangesQueue(s, e);
  }

  lemma RefusalChangesQueue<C>(s: HubState<C>, e: Event<C>)
    requires e.req.JoinRoom? && e.req.room !in Joined(s, e.req.c) && !MayEnter(e.req.lookup, UserOf(s, e.req.c))
    ensures Step(s, e).(box := s.box) == s
    ensures Mail(s, e, e.req.c) == if e.req.lookup.Missing? then [Failure(RoomNotFound)] else [Failure(Forbidden)]
  {}

  // ---------- Typing notes and errors ----------

  /** A typing note that has its typing field goes to everybody in the room, the client it came from included; a failed
      save and an invalid message are reported to the client that sent it and to nobody else. Nothing else changes. */
  lemma NotesAndErrors<C>(user: map<C, UserId>, es: seq<Event<C>>, e: Event<C>, d: C)
    requires IsRun(Fresh(user), es + [e]) && d in user
    requires e.req.TypingNote? || e.req.ReadError? || (e.req.Chat? && !e.req.saved)
    requires e.req.c in user
    ensures var s, s', c := Exec(Fresh(user), es), Exec(Fresh(user), es + [e]), e.req.c;
            var told :=
              if e.req.TypingNote? then
                if e.req.present && d in InRoom(s.rooms, e.req.room) then [Typing(e.req.room, user[c])] else []
              else if d != c then []
              else if e.req.Chat? then [Failure(SendFailed)]
              else [Failure(InvalidMessage)];
            && d in s.box && d in s'.box && s'.box[d] == OfferSeq(s.box[d], told) && s'.(box := s.box) == s
  {
    RunSnoc(Fresh(user), es, e);
    var s := Exec(Fresh(user), es);
    assert Index(s) && s.user == user && d in s.box by { RunKeepsIndex(user, es); }
    OnlyQueues(s, e);
    StepMail(s, e, d);
  }

  // ---------- Signals ----------

  /** d is a participant of the voice room that belongs to the target user. */
  ghost predicate IsCallee<C>(s: HubState<C>, user: map<C, UserId>, r: RoomId, target: UserId, d: C) {
    d in InRoom(s.voice, r) && d in user && user[d] == target
  }

  /** A signal reaches one participant of the target user if there is one, with the sender's user; it reaches nobody
      else, and nobody at all if the target is the nil user or is not in the voice room. */
  lemma SignalReachesCallee<C>(user: map<C, UserId>, es: seq<Event<C>>, e: Event<C>) returns (p: Option<C>)
    requires IsRun(Fresh(user), es + [e]) && e.req.Signal? && e.req.c in user
    ensures var s := Exec(Fresh(user), es);
            && (p.Some? ==> IsCallee(s, user, e.req.room, e.req.target, p.value))
            && (p.Some? <==> e.req.target != NIL_USER && exists d :: IsCallee(s, user, e.req.room, e.req.target, d))
            && forall d: C :: Mail(s, e, d) == if p == Some(d) then [VoiceSignal(e.req.room, user[e.req.c])] else []
  {
    RunSnoc(Fresh(user), es, e);
    var s := Exec(Fresh(user), es);
    assert Index(s) && s.user == user by { RunKeepsIndex(user, es); }
    p := if e.req.target == NIL_USER then None else e.choice.pick;
    PickIsCallee(s, user, e, p);
  }

  lemma PickIsCallee<C>(s: HubState<C>, user: map<C, UserId>, e: Event<C>, p: Option<C>)
    requires Index(s) && s.user == user && Enabled(s, e) && e.req.Signal? && e.req.c in user
    requires p == if e.req.target == NIL_USER then None else e.choice.pick
    ensures p.Some? ==> IsCallee(s, user, e.req.room, e.req.target, p.value)
    ensures p.None? && e.req.target != NIL_USER ==> forall d :: !IsCallee(s, user, e.req.room, e.req.target, d)
    ensures forall d: C :: Mail(s, e, d) == if p == Some(d) then [VoiceSignal(e.req.room, user[e.req.c])] else []
  {}
}
