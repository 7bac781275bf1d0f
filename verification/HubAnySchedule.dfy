/** Theorems about every run of the hub, under any schedule. */
module HubAnySchedule {
  import opened Domain
  import opened Mailboxes
  import opened HubModel
  import opened HubIndex

  /** r is in c.rooms exactly when c is in h.rooms[r], and no room or voice room is left empty. */
  lemma IndexesAgree<C>(user: map<C, UserId>, es: seq<Event<C>>, c: C, r: RoomId)
    requires IsRun(Fresh(user), es) && c in user
    ensures var s := Exec(Fresh(user), es);
            && (r in Joined(s, c) <==> c in InRoom(s.rooms, r))
            && (r in s.rooms <==> InRoom(s.rooms, r) != {})
            && (r in s.voice <==> InRoom(s.voice, r) != {})
  {
    RunKeepsIndex(user, es);
  }

  /** The broadcaster calls for a room alternate Subscribe, Unsubscribe, Subscribe, ..., and the last one is
      a Subscribe exactly when the room has a client. */
  lemma CallsAlternate<C>(user: map<C, UserId>, es: seq<Event<C>>, r: RoomId)
    requires IsRun(Fresh(user), es)
    ensures var s := Exec(Fresh(user), es);
            var own := CallsFor(s.calls, r);
            && (forall i :: 0 <= i < |own| ==> own[i] == if i % 2 == 0 then Subscribe(r) else Unsubscribe(r))
            && (|own| % 2 == 1 <==> InRoom(s.rooms, r) != {})
  {
    RunKeepsIndex(user, es);
    AlternateFor(Exec(Fresh(user), es).calls, r);
  }

  lemma MembershipByJoined<C>(s: HubState<C>, c: C, r: RoomId)
    requires Index(s)
    ensures c in InRoom(s.rooms, r) <==> r in Joined(s, c)
  {}

  /** Unregistering a registered client: it ends in no room and no voice room with its queue closed, and every
      other client keeps exactly its memberships. */
  lemma UnregisterIsolates<C>(user: map<C, UserId>, es: seq<Event<C>>, e: Event<C>, d: C, r: RoomId)
    requires IsRun(Fresh(user), es + [e]) && e.req.Unregister? && d in user
    requires e.req.c in Exec(Fresh(user), es).clients
    ensures var s, s', c := Exec(Fresh(user), es), Exec(Fresh(user), es + [e]), e.req.c;
            && c !in s'.clients && Joined(s', c) == {} && c in s'.box && s'.box[c].closed
            && c !in InRoom(s'.rooms, r) && c !in InRoom(s'.voice, r)
            && (d != c ==>
                  && (d in s'.clients <==> d in s.clients)
                  && Joined(s', d) == Joined(s, d)
                  && (d in InRoom(s'.rooms, r) <==> d in InRoom(s.rooms, r))
                  && (d in InRoom(s'.voice, r) <==> d in InRoom(s.voice, r)))
  {
    assert (es + [e])[..|es|] == es;
    var s, s', c := Exec(Fresh(user), es), Exec(Fresh(user), es + [e]), e.req.c;
    assert c in s.joined && c in s.box by { RunKeepsIndex(user, es); }
    UnregisterRooms(s, c, e.choice.rooms, e.choice.voice);
    UnregisterMail(s, c, e.choice.rooms, e.choice.voice, c);
    assert && (c in InRoom(s'.rooms, r) <==> r in Joined(s', c))
           && (d in InRoom(s'.rooms, r) <==> r in Joined(s', d))
           && (d in InRoom(s.rooms, r) <==> r in Joined(s, d)) by {
      RunKeepsIndex(user, es);
      RunKeepsIndex(user, es + [e]);
      MembershipByJoined(s, d, r);
      MembershipByJoined(s', c, r);
      MembershipByJoined(s', d, r);
    }
  }

  // ---------- Who is where ----------

  /** Who may enter a room: anybody a public or voice room, members a DM room, members and the owner a private room. */
  ghost predicate MayEnter(lookup: Lookup, user: UserId) {
    && lookup.Found?
    && (lookup.kind == Public || lookup.kind == Voice || lookup.member
        || (lookup.kind == Private && lookup.owner == user))
  }

  ghost predicate Departs<C>(s: HubState<C>, e: Event<C>, d: C) {
    e.req == Unregister(d) && d in s.clients
  }

  lemma JoinChanges<C>(s: HubState<C>, c: C, r: RoomId, lookup: Lookup, order: seq<C>, d: C, q: RoomId)
    requires TwoWay(s.rooms, s.joined) && c in s.joined
    ensures d in InRoom(JoinStep(s, c, r, lookup, order).rooms, q)
       <==> d in InRoom(s.rooms, q) || (d == c && q == r && MayEnter(lookup, UserOf(s, c)))
  {}

  lemma LeaveChanges<C>(s: HubState<C>, c: C, r: RoomId, d: C, q: RoomId)
    ensures d in InRoom(LeaveStep(s, c, r).rooms, q) <==> d in InRoom(s.rooms, q) && !(d == c && q == r)
  {}

  /** The members of every room and voice room after every event: a client enters by a permitted join and leaves by its
      own leave or unregister, and nothing else changes a membership. */
  lemma MembershipExactly<C>(user: map<C, UserId>, es: seq<Event<C>>, e: Event<C>, d: C, q: RoomId)
    requires IsRun(Fresh(user), es + [e]) && d in user
    ensures var s, s' := Exec(Fresh(user), es), Exec(Fresh(user), es + [e]);
            && (d in InRoom(s'.rooms, q) <==>
                  && !Departs(s, e, d) && e.req != LeaveRoom(d, q)
                  && (d in InRoom(s.rooms, q)
                      || (e.req.JoinRoom? && e.req.c == d && e.req.room == q && MayEnter(e.req.lookup, user[d]))))
            && (d in InRoom(s'.voice, q) <==>
                  && !Departs(s, e, d) && e.req != VoiceLeave(d, q)
                  && (d in InRoom(s.voice, q) || e.req == VoiceJoin(d, q)))
  {
    RunSnoc(Fresh(user), es, e);
    var s := Exec(Fresh(user), es);
    assert Index(s) && s.user == user by { RunKeepsIndex(user, es); }
    RoomsExactly(s, e, d, q);
    VoiceExactly(s, e, d, q);
  }

  lemma RoomsExactly<C>(s: HubState<C>, e: Event<C>, d: C, q: RoomId)
    requires Index(s) && Enabled(s, e) && d in s.user
    ensures d in InRoom(Step(s, e).rooms, q) <==>
              && !Departs(s, e, d) && e.req != LeaveRoom(d, q)
              && (d in InRoom(s.rooms, q)
                  || (e.req.JoinRoom? && e.req.c == d && e.req.room == q && MayEnter(e.req.lookup, UserOf(s, d))))
  {
    if e.req.JoinRoom? { JoinChanges(s, e.req.c, e.req.room, e.req.lookup, e.choice.peers, d, q); }
    else if e.req.LeaveRoom? { LeaveChanges(s, e.req.c, e.req.room, d, q); }
    else if !e.req.Unregister? { SameRooms(s, e); }
    else if e.req.c in s.clients { UnregisterChanges(s, e, d, q); }
  }

  lemma UnregisterChanges<C>(s: HubState<C>, e: Event<C>, d: C, q: RoomId)
    requires Index(s) && Enabled(s, e) && d in s.user && e.req.Unregister? && e.req.c in s.clients
    ensures d in InRoom(Step(s, e).rooms, q) <==> d in InRoom(s.rooms, q) && d != e.req.c
    ensures d in InRoom(Step(s, e).voice, q) <==> d in InRoom(s.voice, q) && d != e.req.c
  {
    UnregisterRooms(s, e.req.c, e.choice.rooms, e.choice.voice);
    assert Index(Step(s, e)) by { UnregisterKeepsIndex(s, e.req.c, e.choice.rooms, e.choice.voice); }
    MembershipByJoined(Step(s, e), d, q);
    MembershipByJoined(s, d, q);
  }

  lemma VoiceChanges<C>(s: HubState<C>, e: Event<C>, d: C, q: RoomId)
    requires e.req.VoiceJoin? || e.req.VoiceLeave?
    ensures d in InRoom(Step(s, e).voice, q)
       <==> e.req != VoiceLeave(d, q) && (d in InRoom(s.voice, q) || e.req == VoiceJoin(d, q))
  {
    if e.req.VoiceJoin? { VoiceJoinFrame(s, e.req.c, e.req.room, e.choice.peers); }
    else { VoiceLeaveFrame(s, e.req.c, e.req.room); }
  }

  lemma VoiceExactly<C>(s: HubState<C>, e: Event<C>, d: C, q: RoomId)
    requires Index(s) && Enabled(s, e) && d in s.user
    ensures d in InRoom(Step(s, e).voice, q) <==>
              && !Departs(s, e, d) && e.req != VoiceLeave(d, q)
              && (d in InRoom(s.voice, q) || e.req == VoiceJoin(d, q))
  {
    if e.req.VoiceJoin? || e.req.VoiceLeave? { VoiceChanges(s, e, d, q); }
    else if !e.req.Unregister? { SameVoice(s, e); }
    else if e.req.c in s.clients { UnregisterChanges(s, e, d, q); }
  }

  // ---------- Mail ----------

  /** What one event offers to client d. */
  ghost function Mail<C>(s: HubState<C>, e: Event<C>, d: C): seq<Msg> {
    match e.req
    case Register(_) => []
    case Unregister(c) => if c in s.clients && d != c then FarewellTo(s, c, d, e.choice.voice) else []
    case JoinRoom(c, r, lookup) =>
      if d != c || r in Joined(s, c) then []
      else if Refusal(lookup, UserOf(s, c)).Some? then [Failure(Refusal(lookup, UserOf(s, c)).value)]
      else [RoomJoined(r, Users(s, e.choice.peers))]
    case LeaveRoom(_, _) => []
    case Chat(c, _, _, saved) => if d == c && !saved then [Failure(SendFailed)] else []
    case TypingNote(c, r, present) => if present && d in InRoom(s.rooms, r) then [Typing(r, UserOf(s, c))] else []
    case VoiceJoin(c, r) =>
      if d == c then [VoiceParticipants(r, Users(s, e.choice.peers))]
      else if d in InRoom(s.voice, r) then [VoiceJoined(r, UserOf(s, c))]
      else []
    case VoiceLeave(c, r) => if d in InRoom(s.voice, r) && d != c then [VoiceLeft(r, UserOf(s, c))] else []
    case Signal(c, r, target) =>
      if target != NIL_USER && e.choice.pick == Some(d) then [VoiceSignal(r, UserOf(s, c))] else []
    case Broadcast(r, data) => if d in InRoom(s.rooms, r) then [Payload(r, data)] else []
    case ReadError(c) => if d == c then [Failure(InvalidMessage)] else []
    case WriterTakes(_) => []
  }

  /** A client that enters a room is told the users of everybody now in it, itself included, one entry a client. */
  lemma JoinerIsToldTheRoom<C>(user: map<C, UserId>, es: seq<Event<C>>, e: Event<C>)
    requires IsRun(Fresh(user), es + [e]) && e.req.JoinRoom?
    requires Admits(Exec(Fresh(user), es), e.req.c, e.req.room, e.req.lookup)
    ensures var s, s', c, r := Exec(Fresh(user), es), Exec(Fresh(user), es + [e]), e.req.c, e.req.room;
            var us, here := Users(s, e.choice.peers), InRoom(s'.rooms, r);
            && c in here && Mail(s, e, c) == [RoomJoined(r, us)]
            && |us| == |here| && (set u | u in us) == (set q | q in here :: UserOf(s', q))
  {
    assert (es + [e])[..|es|] == es;
    AdmittedIsTold(Exec(Fresh(user), es), e);
  }

  lemma AdmittedIsTold<C>(s: HubState<C>, e: Event<C>)
    requires e.req.JoinRoom? && Admits(s, e.req.c, e.req.room, e.req.lookup) && Enabled(s, e)
    ensures var s', c, r := Step(s, e), e.req.c, e.req.room;
            var us, here := Users(s, e.choice.peers), InRoom(s'.rooms, r);
            && c in here && Mail(s, e, c) == [RoomJoined(r, us)]
            && |us| == |here| && (set u | u in us) == (set q | q in here :: UserOf(s', q))
  {
    AdmittedChanges(s, e);
    EnumeratedUsers(s, e.choice.peers, InRoom(s.rooms, e.req.room) + {e.req.c});
  }

  lemma AdmittedChanges<C>(s: HubState<C>, e: Event<C>)
    requires e.req.JoinRoom? && Admits(s, e.req.c, e.req.room, e.req.lookup)
    ensures Step(s, e).user == s.user && InRoom(Step(s, e).rooms, e.req.room) == InRoom(s.rooms, e.req.room) + {e.req.c}
    ensures Mail(s, e, e.req.c) == [RoomJoined(e.req.room, Users(s, e.choice.peers))]
  {}

  ghost predicate TouchesQueue<C>(s: HubState<C>, e: Event<C>, d: C) {
    || (e.req.Unregister? && e.req.c == d && d in s.clients)
    || (e.req.WriterTakes? && e.req.c == d)
  }

  lemma SentMail<C>(s: HubState<C>, targets: set<C>, m: Msg, d: C)
    requires d in s.box
    ensures d in Send(s, targets, m).box
    ensures Send(s, targets, m).box[d] == OfferSeq(s.box[d], if d in targets then [m] else [])
  {
    assert [m][..0] == [];
  }

  lemma MailOnlyMail<C>(s: HubState<C>, e: Event<C>, d: C)
    requires d in s.box && (MailOnly(e.req) || (e.req.Chat? && e.req.saved))
    ensures d in Step(s, e).box && Step(s, e).box[d] == OfferSeq(s.box[d], Mail(s, e, d))
  {
    match e.req
    case Chat(c, _, _, saved) => if !saved { SentMail(s, {c}, Failure(SendFailed), d); }
    case TypingNote(c, r, present) => if present { SentMail(s, InRoom(s.rooms, r), Typing(r, UserOf(s, c)), d); }
    case Signal(c, r, target) =>
      if target != NIL_USER && e.choice.pick.Some? {
        SentMail(s, {e.choice.pick.value}, VoiceSignal(r, UserOf(s, c)), d);
      }
    case Broadcast(r, data) => SentMail(s, InRoom(s.rooms, r), Payload(r, data), d);
    case ReadError(c) => SentMail(s, {c}, Failure(InvalidMessage), d);
  }

  lemma JoinMail<C>(s: HubState<C>, e: Event<C>, d: C)
    requires d in s.box && e.req.JoinRoom?
    ensures d in Step(s, e).box && Step(s, e).box[d] == OfferSeq(s.box[d], Mail(s, e, d))
  {
    var c, r, lookup := e.req.c, e.req.room, e.req.lookup;
    if r !in Joined(s, c) {
      match Refusal(lookup, UserOf(s, c))
      case Some(code) => SentMail(s, {c}, Failure(code), d);
      case None => SentMail(Admit(s, c, r), {c}, RoomJoined(r, Users(s, e.choice.peers)), d);
    }
  }

  lemma VoiceJoinMail<C>(s: HubState<C>, e: Event<C>, d: C)
    requires d in s.box && e.req.VoiceJoin?
    ensures d in Step(s, e).box && Step(s, e).box[d] == OfferSeq(s.box[d], Mail(s, e, d))
  {
    var c, r := e.req.c, e.req.room;
    var s1 := s.(voice := s.voice[r := InRoom(s.voice, r) + {c}]);
    var list := VoiceParticipants(r, Users(s, e.choice.peers));
    SentMail(s1, {c}, list, d);
    SentMail(Send(s1, {c}, list), s1.voice[r] - {c}, VoiceJoined(r, UserOf(s, c)), d);
  }

  lemma VoiceLeaveMail<C>(s: HubState<C>, e: Event<C>, d: C)
    requires d in s.box && e.req.VoiceLeave?
    ensures d in Step(s, e).box && Step(s, e).box[d] == OfferSeq(s.box[d], Mail(s, e, d))
  {
    var c, r := e.req.c, e.req.room;
    var left := InRoom(s.voice, r) - {c};
    var s1 := if r !in s.voice then s
              else if left == {} then s.(voice := s.voice - {r})
              else s.(voice := s.voice[r := left]);
    SentMail(s1, left, VoiceLeft(r, UserOf(s, c)), d);
  }

  lemma StepMail<C>(s: HubState<C>, e: Event<C>, d: C)
    requires Enabled(s, e) && d in s.box && s.clients <= s.joined.Keys
    ensures d in Step(s, e).box
    ensures !TouchesQueue(s, e, d) ==> Step(s, e).box[d] == OfferSeq(s.box[d], Mail(s, e, d))
    ensures TouchesQueue(s, e, d) ==> Step(s, e).box[d] == if e.req.Unregister? then Close(s.box[d]) else Take(s.box[d])
  {
    match e.req
    case Unregister(c) => if c in s.clients { UnregisterMail(s, c, e.choice.rooms, e.choice.voice, d); }
    case JoinRoom(_, _, _) => JoinMail(s, e, d);
    case VoiceJoin(_, _) => VoiceJoinMail(s, e, d);
    case VoiceLeave(_, _) => VoiceLeaveMail(s, e, d);
    case Register(_) =>
    case LeaveRoom(_, _) =>
    case WriterTakes(_) =>
    case _ => MailOnlyMail(s, e, d);
  }

  /** A client's queue in every reachable state: at most 256 messages; everything offered was taken, is queued or was
      dropped, and what was taken followed by what is queued is what was offered, in order, minus the drops. */
  lemma QueueLaw<C>(user: map<C, UserId>, es: seq<Event<C>>, c: C) returns (at: seq<nat>)
    requires IsRun(Fresh(user), es) && c in user
    ensures c in Exec(Fresh(user), es).box
    ensures var b := Exec(Fresh(user), es).box[c];
            && |b.buf| <= 256
            && multiset(b.offered) == multiset(b.taken) + multiset(b.buf) + multiset(b.dropped)
            && |at| == |b.taken + b.buf|
            && (forall i :: 0 <= i < |at| ==> at[i] < |b.offered| && b.offered[at[i]] == (b.taken + b.buf)[i])
            && (forall i, j :: 0 <= i < j < |at| ==> at[i] < at[j])
  {
    RunKeepsIndex(user, es);
    var b := Exec(Fresh(user), es).box[c];
    InterleavesCounts(b.offered, b.taken + b.buf, b.dropped);
    at := InterleavesPositions(b.offered, b.taken + b.buf, b.dropped);
  }

  // ---------- Closing ----------

  ghost predicate RegisteredIn<C>(es: seq<Event<C>>, c: C) {
    exists i :: 0 <= i < |es| && es[i].req == Register(c)
  }

  /** Each connection is registered once: RegisterClient runs once per connection. */
  ghost predicate RegistersOnce<C>(es: seq<Event<C>>) {
    forall i, j :: 0 <= i < j < |es| && es[i].req.Register? ==> es[j].req != es[i].req
  }

  /** No queue is ever closed twice, and the clients of the hub have open queues. */
  lemma {:induction false} ClosedOnce<C>(user: map<C, UserId>, es: seq<Event<C>>, c: C)
    requires IsRun(Fresh(user), es) && RegistersOnce(es) && c in user
    ensures var s := Exec(Fresh(user), es);
            && c in s.box && !s.box[c].closedTwice
            && (c in s.clients ==> !s.box[c].closed && RegisteredIn(es, c))
            && (s.box[c].closed ==> RegisteredIn(es, c))
    decreases |es|
  {
    if es != [] {
      var n := |es| - 1;
      var s, e := Exec(Fresh(user), es[..n]), es[n];
      ClosedOnce(user, es[..n], c);
      RunKeepsIndex(user, es[..n]);
      StepMail(s, e, c);
      OfferSeqEffect(s.box[c], Mail(s, e, c));
      StepClients(s, e);
      if RegisteredIn(es[..n], c) {
        var i :| 0 <= i < n && es[..n][i].req == Register(c);
        assert es[i].req == Register(c);
      }
    }
  }

  lemma StepClients<C>(s: HubState<C>, e: Event<C>)
    requires s.clients <= s.joined.Keys
    ensures Step(s, e).clients == if e.req.Register? then s.clients + {e.req.c}
                                  else if e.req.Unregister? then s.clients - {e.req.c} else s.clients
  {
    if e.req.Unregister? && e.req.c in s.clients {
      LeaveAllFrame(Disconnect(s, e.req.c), e.req.c, e.choice.rooms);
      VoiceLeaveAllFrame(LeaveAll(Disconnect(s, e.req.c), e.req.c, e.choice.rooms), e.req.c, e.choice.voice);
    }
  }

  /** The hub consumed a register of c and, later, an unregister of c. */
  ghost predicate RetiredIn<C>(es: seq<Event<C>>, c: C) {
    exists i, j :: 0 <= i < j < |es| && es[i].req == Register(c) && es[j].req == Unregister(c)
  }

  lemma RegisteredOneMore<C>(es: seq<Event<C>>, c: C)
    requires es != []
    ensures RegisteredIn(es, c) <==> RegisteredIn(es[..|es| - 1], c) || es[|es| - 1].req == Register(c)
  {
    var n := |es| - 1;
    if RegisteredIn(es[..n], c) {
      var i :| 0 <= i < n && es[..n][i].req == Register(c);
      assert es[i].req == Register(c);
    }
    if RegisteredIn(es, c) {
      var i :| 0 <= i < |es| && es[i].req == Register(c);
      if i < n { assert es[..n][i].req == Register(c); }
    }
  }

  lemma RetiredOneMore<C>(es: seq<Event<C>>, c: C)
    requires es != []
    ensures RetiredIn(es, c)
       <==> RetiredIn(es[..|es| - 1], c) || (RegisteredIn(es[..|es| - 1], c) && es[|es| - 1].req == Unregister(c))
  {
    var n := |es| - 1;
    var before := es[..n];
    if RetiredIn(before, c) {
      var i, j :| 0 <= i < j < n && before[i].req == Register(c) && before[j].req == Unregister(c);
      assert es[i].req == Register(c) && es[j].req == Unregister(c);
    }
    if RegisteredIn(before, c) && es[n].req == Unregister(c) {
      var i :| 0 <= i < n && before[i].req == Register(c);
      assert es[i].req == Register(c);
    }
    if RetiredIn(es, c) {
      var i, j :| 0 <= i < j < |es| && es[i].req == Register(c) && es[j].req == Unregister(c);
      assert before[i].req == Register(c);
      if j < n { assert before[j].req == Unregister(c); }
    }
  }

  lemma StepCloses<C>(s: HubState<C>, e: Event<C>, c: C)
    requires Index(s) && Enabled(s, e) && c in s.box
    ensures c in Step(s, e).box
    ensures Step(s, e).box[c].closed <==> s.box[c].closed || (e.req == Unregister(c) && c in s.clients)
  {
    StepMail(s, e, c);
    if !TouchesQueue(s, e, c) { OfferSeqEffect(s.box[c], Mail(s, e, c)); }
  }

  lemma RegistersOnceBefore<C>(es: seq<Event<C>>, c: C)
    requires RegistersOnce(es) && es != []
    ensures RegistersOnce(es[..|es| - 1])
    ensures es[|es| - 1].req == Register(c) ==> !RegisteredIn(es[..|es| - 1], c) && !RetiredIn(es[..|es| - 1], c)
  {
    var n := |es| - 1;
    if es[n].req == Register(c) {
      forall i | 0 <= i < n ensures es[..n][i].req != Register(c) { assert es[i].req != es[n].req; }
    }
  }

  /** When an unregister takes effect, under any schedule: a client's queue is closed exactly if the hub consumed the
      client's register before an unregister of it, and the client is in the hub exactly if its register was consumed
      and that is not so. An unregister consumed first is lost. */
  lemma {:induction false} ClosedExactly<C>(user: map<C, UserId>, es: seq<Event<C>>, c: C)
    requires IsRun(Fresh(user), es) && RegistersOnce(es) && c in user
    ensures var s := Exec(Fresh(user), es);
            && c in s.box
            && (s.box[c].closed <==> RetiredIn(es, c))
            && (c in s.clients <==> RegisteredIn(es, c) && !RetiredIn(es, c))
    decreases |es|
  {
    if es != [] {
      var n := |es| - 1;
      var s, e := Exec(Fresh(user), es[..n]), es[n];
      RegistersOnceBefore(es, c);
      ClosedExactly(user, es[..n], c);
      assert Index(s) by { RunKeepsIndex(user, es[..n]); }
      StepCloses(s, e, c);
      StepClients(s, e);
      RegisteredOneMore(es, c);
      RetiredOneMore(es, c);
    }
  }

  // ---------- Offline notices ----------

  ghost predicate ShareRoom<C>(s: HubState<C>, c: C, d: C) {
    c != d && Joined(s, c) * Joined(s, d) != {}
  }

  /** The audience found through the hub's index is the clients whose own rooms meet c's; it is symmetric. */
  lemma AudienceIsSharedRooms<C>(user: map<C, UserId>, es: seq<Event<C>>, c: C, d: C)
    requires IsRun(Fresh(user), es) && c in user && d in user
    ensures var s := Exec(Fresh(user), es);
            && (d in RoomPeers(s, c) <==> ShareRoom(s, c, d))
            && (d in RoomPeers(s, c) <==> c in RoomPeers(s, d))
  {
    RunKeepsIndex(user, es);
    var s := Exec(Fresh(user), es);
    PeersShare(s, c, d);
    PeersShare(s, d, c);
    assert Joined(s, c) * Joined(s, d) == Joined(s, d) * Joined(s, c);
  }

  lemma PeersShare<C>(s: HubState<C>, c: C, d: C)
    requires TwoWay(s.rooms, s.joined) && c in s.joined && d in s.joined
    ensures d in RoomPeers(s, c) <==> ShareRoom(s, c, d)
  {
    if ShareRoom(s, c, d) {
      var r :| r in Joined(s, c) * Joined(s, d);
      assert d in InRoom(s.rooms, r);
    }
    if d in RoomPeers(s, c) {
      var r :| r in Joined(s, c) && d in InRoom(s.rooms, r) && d != c;
      assert r in Joined(s, c) * Joined(s, d);
    }
  }

  /** Unregistering c offers one offline notice to each client that shared a room with it before, and none to
      anybody else, although the memberships are dismantled before the notice is sent. */
  lemma OneOfflineNotice<C>(user: map<C, UserId>, es: seq<Event<C>>, e: Event<C>, d: C)
    requires IsRun(Fresh(user), es + [e]) && e.req.Unregister? && d in user && d != e.req.c
    requires e.req.c in Exec(Fresh(user), es).clients
    ensures var s, s' := Exec(Fresh(user), es), Exec(Fresh(user), es + [e]);
            var ms := Mail(s, e, d);
            && d in s.box && d in s'.box && s'.box[d] == OfferSeq(s.box[d], ms)
            && multiset(ms)[Offline(user[e.req.c])] == if ShareRoom(s, e.req.c, d) then 1 else 0
  {
    assert (es + [e])[..|es|] == es;
    var s, c := Exec(Fresh(user), es), e.req.c;
    RunKeepsIndex(user, es);
    StepMail(s, e, d);
    AudienceIsSharedRooms(user, es, c, d);
    WhatGoodbyesSay(s.voice, UserOf(s, c), c, d, e.choice.voice, Offline(user[c]));
  }
}
