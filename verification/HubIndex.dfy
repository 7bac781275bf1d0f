/** What holds of the hub under every schedule: nothing is assumed about the order in which a client's register,
    envelopes and unregister are consumed. */
module HubIndex {
  import opened Domain
  import opened Mailboxes
  import opened HubModel

  // ---------- Calls on the broadcaster ----------

  ghost function AfterCall(out: set<RoomId>, call: Call): set<RoomId> {
    if call.Subscribe? then out + {call.room} else if call.Unsubscribe? then out - {call.room} else out
  }

  /** Each Subscribe is for a room without a subscription outstanding, each Unsubscribe for a room with one. */
  ghost predicate Alternates(out: set<RoomId>, call: Call) {
    && (call.Subscribe? ==> call.room !in out)
    && (call.Unsubscribe? ==> call.room in out)
  }

  /** The rooms with a Subscribe not yet followed by an Unsubscribe. */
  ghost function Outstanding(calls: seq<Call>): set<RoomId> {
    if calls == [] then {} else AfterCall(Outstanding(calls[..|calls| - 1]), calls[|calls| - 1])
  }

  ghost predicate Alternate(calls: seq<Call>) {
    calls == [] ||
    (Alternate(calls[..|calls| - 1]) && Alternates(Outstanding(calls[..|calls| - 1]), calls[|calls| - 1]))
  }

  /** The subscribe and unsubscribe calls for one room. */
  ghost function CallsFor(calls: seq<Call>, r: RoomId): seq<Call> {
    if calls == [] then []
    else
      var last := calls[|calls| - 1];
      CallsFor(calls[..|calls| - 1], r) + if last == Subscribe(r) || last == Unsubscribe(r) then [last] else []
  }

  lemma {:induction false} AlternateFor(calls: seq<Call>, r: RoomId)
    requires Alternate(calls)
    ensures var own := CallsFor(calls, r);
            && (forall i :: 0 <= i < |own| ==> own[i] == if i % 2 == 0 then Subscribe(r) else Unsubscribe(r))
            && (|own| % 2 == 1 <==> r in Outstanding(calls))
    decreases |calls|
  {
    if calls != [] {
      AlternateFor(calls[..|calls| - 1], r);
    }
  }

  lemma AppendCall(calls: seq<Call>, call: Call)
    requires Alternate(calls) && Alternates(Outstanding(calls), call)
    ensures Alternate(calls + [call])
    ensures Outstanding(calls + [call]) == AfterCall(Outstanding(calls), call)
  {
    assert (calls + [call])[..|calls|] == calls;
  }

  // ---------- The invariant ----------

  /** r in c.rooms exactly when c in h.rooms[r], and no room is left empty. */
  ghost predicate TwoWay<C>(rooms: map<RoomId, set<C>>, joined: map<C, set<RoomId>>) {
    && (forall r <- rooms :: rooms[r] != {})
    && (forall r <- rooms, c <- rooms[r] :: c in joined && r in joined[c])
    && (forall c <- joined, r <- joined[c] :: r in rooms && c in rooms[r])
  }

  ghost predicate Occupied<C>(voice: map<RoomId, set<C>>, known: set<C>) {
    forall r <- voice :: voice[r] != {} && voice[r] <= known
  }

  ghost predicate AllLawful<C>(box: map<C, Mailbox>) {
    forall c <- box :: Lawful(box[c])
  }

  ghost predicate Index<C>(s: HubState<C>) {
    && s.box.Keys == s.joined.Keys == s.user.Keys
    && s.clients <= s.user.Keys
    && TwoWay(s.rooms, s.joined)
    && Occupied(s.voice, s.user.Keys)
    && Alternate(s.calls) && Outstanding(s.calls) == s.rooms.Keys
    && AllLawful(s.box)
  }

  lemma SendKeepsIndex<C>(s: HubState<C>, targets: set<C>, m: Msg)
    requires Index(s)
    ensures Index(Send(s, targets, m))
  {
    forall c <- s.box ensures Lawful(OfferAll(s.box, targets, m)[c]) {
      OfferLawful(s.box[c], m);
    }
  }

  lemma TwoWayJoin<C>(rooms: map<RoomId, set<C>>, joined: map<C, set<RoomId>>, c: C, r: RoomId)
    requires TwoWay(rooms, joined) && c in joined
    ensures TwoWay(rooms[r := InRoom(rooms, r) + {c}], joined[c := joined[c] + {r}])
  {
    var rooms', joined' := rooms[r := InRoom(rooms, r) + {c}], joined[c := joined[c] + {r}];
    forall d <- joined', q <- joined'[d] ensures q in rooms' && d in rooms'[q] {
      if d != c || q != r { assert q in joined[d] && q in rooms && d in rooms[q]; }
    }
  }

  /** `delete(c.rooms, r)` together with `delete(room, c)` and the removal of a room left empty. */
  lemma TwoWayLeave<C>(rooms: map<RoomId, set<C>>, joined: map<C, set<RoomId>>, c: C, r: RoomId)
    requires TwoWay(rooms, joined) && c in joined
    ensures var left := InRoom(rooms, r) - {c};
            TwoWay(if left == {} then rooms - {r} else rooms[r := left], joined[c := joined[c] - {r}])
  {
    var left := InRoom(rooms, r) - {c};
    var rooms', joined' := if left == {} then rooms - {r} else rooms[r := left], joined[c := joined[c] - {r}];
    forall d <- joined', q <- joined'[d] ensures q in rooms' && d in rooms'[q] {
      assert q in joined[d] && q in rooms && d in rooms[q];
      if q == r { assert d in left; }
    }
  }

  lemma JoinKeepsIndex<C>(s: HubState<C>, c: C, r: RoomId, lookup: Lookup, order: seq<C>)
    requires Index(s) && c in s.user
    ensures Index(JoinStep(s, c, r, lookup, order))
  {
    if r !in Joined(s, c) {
      match Refusal(lookup, UserOf(s, c))
      case Some(code) => SendKeepsIndex(s, {c}, Failure(code));
      case None =>
        AdmitKeepsIndex(s, c, r);
        SendKeepsIndex(Admit(s, c, r), {c}, RoomJoined(r, Users(s, order)));
    }
  }

  lemma AdmitKeepsIndex<C>(s: HubState<C>, c: C, r: RoomId)
    requires Index(s) && c in s.user
    ensures Index(Admit(s, c, r))
  {
    TwoWayJoin(s.rooms, s.joined, c, r);
    if r !in s.rooms { AppendCall(s.calls, Subscribe(r)); }
  }

  lemma LeaveKeepsIndex<C>(s: HubState<C>, c: C, r: RoomId)
    requires Index(s) && c in s.user
    ensures Index(LeaveStep(s, c, r))
  {
    TwoWayLeave(s.rooms, s.joined, c, r);
    if r !in s.rooms { assert s.rooms - {r} == s.rooms; }
    else if s.rooms[r] - {c} == {} { AppendCall(s.calls, Unsubscribe(r)); }
  }

  lemma LeaveFrame<C>(s: HubState<C>, c: C, r: RoomId)
    requires c in s.joined
    ensures var s' := LeaveStep(s, c, r);
            s' == s.(rooms := s'.rooms, joined := s.joined[c := s.joined[c] - {r}], calls := s'.calls)
  {}

  lemma {:induction false} LeaveAllFrame<C>(s: HubState<C>, c: C, order: seq<RoomId>)
    requires c in s.joined
    ensures var s' := LeaveAll(s, c, order);
            && s'.joined.Keys == s.joined.Keys
            && s' == s.(rooms := s'.rooms, joined := s.joined[c := s'.joined[c]], calls := s'.calls)
            && s'.joined[c] == s.joined[c] - Elements(order)
    decreases |order|
  {
    if order == [] {
      assert s.joined == s.joined[c := s.joined[c]];
    } else {
      var n := |order| - 1;
      LeaveAllFrame(s, c, order[..n]);
      LeaveFrame(LeaveAll(s, c, order[..n]), c, order[n]);
      assert order == order[..n] + [order[n]];
    }
  }

  lemma {:induction false} LeaveAllKeepsIndex<C>(s: HubState<C>, c: C, order: seq<RoomId>)
    requires Index(s) && c in s.user
    ensures Index(LeaveAll(s, c, order))
    decreases |order|
  {
    if order != [] {
      var sn := LeaveAll(s, c, order[..|order| - 1]);
      assert sn.user == s.user by { LeaveAllFrame(s, c, order[..|order| - 1]); }
      LeaveAllKeepsIndex(s, c, order[..|order| - 1]);
      LeaveKeepsIndex(sn, c, order[|order| - 1]);
    }
  }

  lemma VoiceLeaveFrame<C>(s: HubState<C>, c: C, r: RoomId)
    ensures var s' := VoiceLeaveStep(s, c, r);
            && s' == s.(voice := s'.voice, box := s'.box)
            && s'.box.Keys == s.box.Keys
            && InRoom(s'.voice, r) == InRoom(s.voice, r) - {c}
            && forall q | q != r :: InRoom(s'.voice, q) == InRoom(s.voice, q)
  {}

  lemma VoiceJoinFrame<C>(s: HubState<C>, c: C, r: RoomId, order: seq<C>)
    ensures var s' := VoiceJoinStep(s, c, r, order);
            && s' == s.(voice := s.voice[r := InRoom(s.voice, r) + {c}], box := s'.box)
            && s'.box.Keys == s.box.Keys
  {}

  lemma VoiceLeaveKeepsIndex<C>(s: HubState<C>, c: C, r: RoomId)
    requires Index(s)
    ensures Index(VoiceLeaveStep(s, c, r))
  {
    var left := InRoom(s.voice, r) - {c};
    var s1 := if r !in s.voice then s
              else if left == {} then s.(voice := s.voice - {r})
              else s.(voice := s.voice[r := left]);
    assert Index(s1);
    SendKeepsIndex(s1, left, VoiceLeft(r, UserOf(s, c)));
  }

  /** What d is sent when c, of user u, is taken out of voice room r. */
  ghost function Goodbye<C>(voice: map<RoomId, set<C>>, u: UserId, c: C, d: C, r: RoomId): seq<Msg> {
    if c in InRoom(voice, r) && d in InRoom(voice, r) && d != c then [VoiceLeft(r, u)] else []
  }

  ghost function Goodbyes<C>(voice: map<RoomId, set<C>>, u: UserId, c: C, d: C, order: seq<RoomId>): seq<Msg> {
    if order == [] then []
    else Goodbyes(voice, u, c, d, order[..|order| - 1]) + Goodbye(voice, u, c, d, order[|order| - 1])
  }

  lemma {:induction false} WhatGoodbyesSay<C>(voice: map<RoomId, set<C>>, u: UserId, c: C, d: C, order: seq<RoomId>,
                                              m: Msg)
    ensures m in Goodbyes(voice, u, c, d, order)
       <==> m.VoiceLeft? && m.user == u && m.room in order && Goodbye(voice, u, c, d, m.room) != []
    decreases |order|
  {
    if order != [] {
      var n := |order| - 1;
      WhatGoodbyesSay(voice, u, c, d, order[..n], m);
      assert order == order[..n] + [order[n]];
    }
  }

  lemma VoiceLeaveIfInFrame<C>(s: HubState<C>, c: C, r: RoomId)
    ensures var s' := VoiceLeaveIfIn(s, c, r);
            && s' == s.(voice := s'.voice, box := s'.box)
            && InRoom(s'.voice, r) == InRoom(s.voice, r) - {c}
            && (forall q | q != r :: InRoom(s'.voice, q) == InRoom(s.voice, q))
            && s'.box.Keys == s.box.Keys
  {
    VoiceLeaveFrame(s, c, r);
  }

  lemma VoiceLeaveIfInMail<C>(s: HubState<C>, c: C, r: RoomId, d: C)
    requires d in s.box
    ensures d in VoiceLeaveIfIn(s, c, r).box
    ensures VoiceLeaveIfIn(s, c, r).box[d] == OfferSeq(s.box[d], Goodbye(s.voice, UserOf(s, c), c, d, r))
  {
    assert [VoiceLeft(r, UserOf(s, c))][..0] == [];
  }

  lemma {:induction false} VoiceLeaveAllFrame<C>(s: HubState<C>, c: C, order: seq<RoomId>)
    ensures var s' := VoiceLeaveAll(s, c, order);
            && s' == s.(voice := s'.voice, box := s'.box)
            && s'.box.Keys == s.box.Keys
            && (forall r :: InRoom(s'.voice, r) == if r in order then InRoom(s.voice, r) - {c} else InRoom(s.voice, r))
    decreases |order|
  {
    if order != [] {
      var n := |order| - 1;
      VoiceLeaveAllFrame(s, c, order[..n]);
      VoiceLeaveIfInFrame(VoiceLeaveAll(s, c, order[..n]), c, order[n]);
      assert forall q :: q in order <==> q in order[..n] || q == order[n];
    }
  }

  lemma {:induction false} VoiceLeaveAllKeepsIndex<C>(s: HubState<C>, c: C, order: seq<RoomId>)
    requires Index(s)
    ensures Index(VoiceLeaveAll(s, c, order))
    decreases |order|
  {
    if order != [] {
      VoiceLeaveAllKeepsIndex(s, c, order[..|order| - 1]);
      VoiceLeaveKeepsIndex(VoiceLeaveAll(s, c, order[..|order| - 1]), c, order[|order| - 1]);
    }
  }

  lemma {:induction false} VoiceLeaveAllMail<C>(s: HubState<C>, c: C, d: C, order: seq<RoomId>)
    requires d in s.box
    requires forall i, j :: 0 <= i < j < |order| ==> order[i] != order[j]
    ensures d in VoiceLeaveAll(s, c, order).box
    ensures VoiceLeaveAll(s, c, order).box[d] == OfferSeq(s.box[d], Goodbyes(s.voice, UserOf(s, c), c, d, order))
    decreases |order|
  {
    if order != [] {
      var n := |order| - 1;
      var r, sn := order[n], VoiceLeaveAll(s, c, order[..n]);
      VoiceLeaveAllMail(s, c, d, order[..n]);
      VoiceLeaveAllFrame(s, c, order[..n]);
      VoiceLeaveIfInMail(sn, c, r, d);
      assert Goodbye(sn.voice, UserOf(sn, c), c, d, r) == Goodbye(s.voice, UserOf(s, c), c, d, r) by {
        assert r !in order[..n];
      }
      OfferSeqThen(s.box[d], Goodbyes(s.voice, UserOf(s, c), c, d, order[..n]),
                   Goodbye(s.voice, UserOf(s, c), c, d, r));
    }
  }

  lemma {:induction false} NoGoodbyesToSelf<C>(voice: map<RoomId, set<C>>, u: UserId, c: C, order: seq<RoomId>)
    ensures Goodbyes(voice, u, c, c, order) == []
    decreases |order|
  {
    if order != [] { NoGoodbyesToSelf(voice, u, c, order[..|order| - 1]); }
  }

  lemma DisconnectKeepsIndex<C>(s: HubState<C>, c: C)
    requires Index(s)
    ensures Index(Disconnect(s, c))
  {}

  /** Everything d is sent while c unregisters, in order. */
  ghost function FarewellTo<C>(s: HubState<C>, c: C, d: C, voice: seq<RoomId>): seq<Msg> {
    Goodbyes(s.voice, UserOf(s, c), c, d, voice) + if d in RoomPeers(s, c) then [Offline(UserOf(s, c))] else []
  }

  lemma UnregisterKeepsIndex<C>(s: HubState<C>, c: C, rooms: seq<RoomId>, voice: seq<RoomId>)
    requires Index(s) && c in s.clients
    ensures Index(UnregisterStep(s, c, rooms, voice))
  {
    var s1 := Disconnect(s, c);
    DisconnectKeepsIndex(s, c);
    LeaveAllKeepsIndex(s1, c, rooms);
    var s2 := LeaveAll(s1, c, rooms);
    VoiceLeaveAllKeepsIndex(s2, c, voice);
    SendKeepsIndex(VoiceLeaveAll(s2, c, voice), RoomPeers(s, c), Offline(UserOf(s, c)));
  }

  /** The unregister step leaves c in no room and no voice room and changes nobody else's memberships. */
  lemma UnregisterRooms<C>(s: HubState<C>, c: C, rooms: seq<RoomId>, voice: seq<RoomId>)
    requires c in s.clients && c in s.joined
    requires Enumerates(rooms, Joined(s, c)) && Enumerates(voice, s.voice.Keys)
    ensures var s' := UnregisterStep(s, c, rooms, voice);
            && s'.user == s.user && s'.clients == s.clients - {c}
            && s'.joined == s.joined[c := {}]
            && forall r :: InRoom(s'.voice, r) == InRoom(s.voice, r) - {c}
  {
    var s1 := Disconnect(s, c);
    LeaveAllFrame(s1, c, rooms);
    var s2 := LeaveAll(s1, c, rooms);
    assert s2.joined[c] == {};
    VoiceLeaveAllFrame(s2, c, voice);
    var s3 := VoiceLeaveAll(s2, c, voice);
    forall r ensures InRoom(s3.voice, r) == InRoom(s.voice, r) - {c} {
      assert r in voice <==> r in Elements(voice);
    }
  }

  /** It closes c's queue and sends every other client exactly its farewell. */
  lemma UnregisterMail<C>(s: HubState<C>, c: C, rooms: seq<RoomId>, voice: seq<RoomId>, d: C)
    requires c in s.clients && c in s.joined && d in s.box
    requires Enumerates(voice, s.voice.Keys)
    ensures var s' := UnregisterStep(s, c, rooms, voice);
            && d in s'.box
            && s'.box[d] == if d == c then Close(s.box[c]) else OfferSeq(s.box[d], FarewellTo(s, c, d, voice))
  {
    var s1 := Disconnect(s, c);
    LeaveAllFrame(s1, c, rooms);
    var s2 := LeaveAll(s1, c, rooms);
    VoiceLeaveAllMail(s2, c, d, voice);
    NoGoodbyesToSelf(s.voice, UserOf(s, c), c, voice);
    var ms, bye := Goodbyes(s.voice, UserOf(s, c), c, d, voice), Offline(UserOf(s, c));
    OfferSeqThen(s1.box[d], ms, if d in RoomPeers(s, c) then [bye] else []);
    assert [bye][..0] == [];
  }

  lemma VoiceJoinKeepsIndex<C>(s: HubState<C>, c: C, r: RoomId, order: seq<C>)
    requires Index(s) && c in s.user
    ensures Index(VoiceJoinStep(s, c, r, order))
  {
    var s1 := s.(voice := s.voice[r := InRoom(s.voice, r) + {c}]);
    assert Index(s1);
    SendKeepsIndex(s1, {c}, VoiceParticipants(r, Users(s, order)));
    var s2 := Send(s1, {c}, VoiceParticipants(r, Users(s, order)));
    SendKeepsIndex(s2, s1.voice[r] - {c}, VoiceJoined(r, UserOf(s, c)));
  }

  lemma SameUsers<C>(s: HubState<C>, e: Event<C>)
    requires e.req.Unregister? && e.req.c in s.clients ==> e.req.c in s.joined
    ensures Step(s, e).user == s.user
  {
    if e.req.Unregister? && e.req.c in s.clients {
      LeaveAllFrame(Disconnect(s, e.req.c), e.req.c, e.choice.rooms);
      VoiceLeaveAllFrame(LeaveAll(Disconnect(s, e.req.c), e.req.c, e.choice.rooms), e.req.c, e.choice.voice);
    }
  }

  ghost predicate MailOnly<C>(req: Request<C>) {
    (req.Chat? && !req.saved) || req.TypingNote? || req.Signal? || req.Broadcast? || req.ReadError?
  }

  /** These requests send one message to some clients, or nothing. */
  lemma MailOnlySends<C>(s: HubState<C>, e: Event<C>) returns (targets: set<C>, m: Msg)
    requires MailOnly(e.req)
    ensures Step(s, e) == s || Step(s, e) == Send(s, targets, m)
  {
    targets, m := {}, Failure(SendFailed);
    match e.req
    case Chat(c, _, _, _) => targets := {c};
    case TypingNote(c, r, _) => targets, m := InRoom(s.rooms, r), Typing(r, UserOf(s, c));
    case Signal(c, r, _) =>
      if e.choice.pick.Some? { targets, m := {e.choice.pick.value}, VoiceSignal(r, UserOf(s, c)); }
    case Broadcast(r, data) => targets, m := InRoom(s.rooms, r), Payload(r, data);
    case ReadError(c) => targets, m := {c}, Failure(InvalidMessage);
    case _ =>
  }

  /** ... and so change nothing but the queues, like a receive. */
  lemma OnlyQueues<C>(s: HubState<C>, e: Event<C>)
    requires MailOnly(e.req) || e.req.WriterTakes?
    ensures Step(s, e).(box := s.box) == s
  {
    if MailOnly(e.req) { var targets, m := MailOnlySends(s, e); }
  }

  lemma SameRooms<C>(s: HubState<C>, e: Event<C>)
    requires !e.req.Unregister? && !e.req.JoinRoom? && !e.req.LeaveRoom?
    ensures Step(s, e).rooms == s.rooms
  {
    if MailOnly(e.req) || e.req.WriterTakes? { OnlyQueues(s, e); }
    else if e.req.VoiceLeave? { VoiceLeaveFrame(s, e.req.c, e.req.room); }
    else if e.req.VoiceJoin? { VoiceJoinFrame(s, e.req.c, e.req.room, e.choice.peers); }
  }

  lemma SameVoice<C>(s: HubState<C>, e: Event<C>)
    requires !e.req.Unregister? && !e.req.VoiceJoin? && !e.req.VoiceLeave?
    ensures Step(s, e).voice == s.voice
  {
    if MailOnly(e.req) || e.req.WriterTakes? { OnlyQueues(s, e); }
    else if e.req.LeaveRoom? { LeaveVoice(s, e.req.c, e.req.room); }
    else if e.req.JoinRoom? { JoinVoice(s, e.req.c, e.req.room, e.req.lookup, e.choice.peers); }
  }

  lemma LeaveVoice<C>(s: HubState<C>, c: C, r: RoomId)
    ensures LeaveStep(s, c, r).voice == s.voice
  {}

  lemma JoinVoice<C>(s: HubState<C>, c: C, r: RoomId, lookup: Lookup, order: seq<C>)
    ensures JoinStep(s, c, r, lookup, order).voice == s.voice
  {}

  lemma MailOnlyKeepsIndex<C>(s: HubState<C>, e: Event<C>)
    requires Index(s) && MailOnly(e.req)
    ensures Index(Step(s, e))
  {
    var targets, m := MailOnlySends(s, e);
    SendKeepsIndex(s, targets, m);
  }

  lemma PublishKeepsIndex<C>(s: HubState<C>, r: RoomId, data: nat)
    requires Index(s)
    ensures Index(s.(calls := s.calls + [Publish(r, data)]))
  {
    AppendCall(s.calls, Publish(r, data));
  }

  lemma TakeKeepsIndex<C>(s: HubState<C>, c: C)
    requires Index(s) && c in s.box
    ensures Index(s.(box := s.box[c := Take(s.box[c])]))
  {
    TakeLawful(s.box[c]);
  }

  lemma StepKeepsIndex<C>(s: HubState<C>, e: Event<C>)
    requires Index(s) && Enabled(s, e)
    ensures Index(Step(s, e))
  {
    match e.req
    case Register(c) =>
    case Unregister(c) => if c in s.clients { UnregisterKeepsIndex(s, c, e.choice.rooms, e.choice.voice); }
    case JoinRoom(c, r, lookup) => JoinKeepsIndex(s, c, r, lookup, e.choice.peers);
    case LeaveRoom(c, r) => LeaveKeepsIndex(s, c, r);
    case VoiceJoin(c, r) => VoiceJoinKeepsIndex(s, c, r, e.choice.peers);
    case VoiceLeave(c, r) => VoiceLeaveKeepsIndex(s, c, r);
    case WriterTakes(c) => TakeKeepsIndex(s, c);
    case Chat(_, r, data, saved) => if saved { PublishKeepsIndex(s, r, data); } else { MailOnlyKeepsIndex(s, e); }
    case _ => MailOnlyKeepsIndex(s, e);
  }

  lemma {:induction false} RunKeepsIndex<C>(user: map<C, UserId>, es: seq<Event<C>>)
    requires IsRun(Fresh(user), es)
    ensures Index(Exec(Fresh(user), es)) && Exec(Fresh(user), es).user == user
    decreases |es|
  {
    if es != [] {
      RunKeepsIndex(user, es[..|es| - 1]);
      StepKeepsIndex(Exec(Fresh(user), es[..|es| - 1]), es[|es| - 1]);
      SameUsers(Exec(Fresh(user), es[..|es| - 1]), es[|es| - 1]);
    }
  }
}
