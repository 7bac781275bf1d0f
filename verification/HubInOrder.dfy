/** Theorems about the runs in which the hub consumes each client's register before its envelopes and its
    unregister after all of them. The select in `Run` reads separate channels, so this is an assumption on the
    schedule; HubWitness has runs that show what goes wrong without it. */
module HubInOrder {
  import opened Domain
  import opened Mailboxes
  import opened HubModel
  import opened HubIndex
  import opened HubAnySchedule

  ghost predicate UnregisteredIn<C>(es: seq<Event<C>>, c: C) {
    exists i :: 0 <= i < |es| && es[i].req == Unregister(c)
  }

  /** e does not come too early or too late after `before`. The read pump writes its own errors before it sends
      unregister, but possibly before the hub has consumed the register. */
  ghost predicate Timely<C>(before: seq<Event<C>>, e: Event<C>) {
    match e.req
    case Register(c) => !RegisteredIn(before, c) && !UnregisteredIn(before, c)
    case Broadcast(_, _) => true
    case WriterTakes(_) => true
    case ReadError(c) => !UnregisteredIn(before, c)
    case _ => RegisteredIn(before, e.req.c) && !UnregisteredIn(before, e.req.c)
  }

  ghost predicate InOrder<C>(es: seq<Event<C>>) {
    forall j {:trigger Timely(es[..j], es[j])} | 0 <= j < |es| :: Timely(es[..j], es[j])
  }

  // ---------- No send on a closed channel ----------

  ghost predicate Within<C>(rooms: map<RoomId, set<C>>, clients: set<C>) {
    forall r <- rooms :: rooms[r] <= clients
  }

  ghost predicate NoFault<C>(s: HubState<C>) {
    && Within(s.rooms, s.clients)
    && Within(s.voice, s.clients)
    && (forall c <- s.box :: !s.box[c].sentWhenClosed && !s.box[c].closedTwice)
    && (forall c <- s.clients :: c in s.box && !s.box[c].closed)
  }

  /** What in-order consumption means in the state where e happens. */
  ghost predicate OnTime<C>(s: HubState<C>, e: Event<C>) {
    match e.req
    case Register(c) => c in s.box && !s.box[c].closed
    case Broadcast(_, _) => true
    case WriterTakes(_) => true
    case ReadError(c) => c in s.box && !s.box[c].closed
    case _ => e.req.c in s.clients
  }

  /** Every message of an event goes to an open queue. */
  lemma MailGoesToOpenQueues<C>(s: HubState<C>, e: Event<C>, d: C)
    requires NoFault(s) && Enabled(s, e) && OnTime(s, e)
    ensures Mail(s, e, d) != [] ==> d in s.box && !s.box[d].closed
  {
    if e.req.Unregister? && Mail(s, e, d) != [] {
      if d in RoomPeers(s, e.req.c) {
        var r :| r in Joined(s, e.req.c) && d in InRoom(s.rooms, r);
      } else {
        WhatGoodbyesSay(s.voice, UserOf(s, e.req.c), e.req.c, d, e.choice.voice, Mail(s, e, d)[0]);
      }
    }
  }

  lemma UnregisterRoomsWithin<C>(s: HubState<C>, e: Event<C>)
    requires Index(s) && Within(s.rooms, s.clients) && Enabled(s, e) && e.req.Unregister? && e.req.c in s.clients
    ensures Within(Step(s, e).rooms, Step(s, e).clients)
  {
    var s', c := Step(s, e), e.req.c;
    assert Index(s') by { StepKeepsIndex(s, e); }
    UnregisterRooms(s, c, e.choice.rooms, e.choice.voice);
    WithinAfterLeaving(s, s', c);
  }

  lemma WithinAfterLeaving<C>(s: HubState<C>, s': HubState<C>, c: C)
    requires TwoWay(s.rooms, s.joined) && TwoWay(s'.rooms, s'.joined) && Within(s.rooms, s.clients)
    requires s'.joined == s.joined[c := {}] && s'.clients == s.clients - {c}
    ensures Within(s'.rooms, s'.clients)
  {
    forall r <- s'.rooms, d <- s'.rooms[r] ensures d in s'.clients {
      assert d in s'.joined && r in s'.joined[d];
      assert d in s.joined && r in s.joined[d];
      assert d in s.rooms[r];
    }
  }

  /** Apart from unregister, an event brings at most its own client into a room or a voice room. */
  lemma NewMembers<C>(s: HubState<C>, e: Event<C>, r: RoomId, d: C)
    requires !e.req.Unregister?
    ensures d in InRoom(Step(s, e).rooms, r) ==> d in InRoom(s.rooms, r) || (e.req.JoinRoom? && d == e.req.c)
    ensures d in InRoom(Step(s, e).voice, r) ==> d in InRoom(s.voice, r) || (e.req.VoiceJoin? && d == e.req.c)
  {
    if !e.req.JoinRoom? && !e.req.LeaveRoom? { SameRooms(s, e); }
    if !e.req.VoiceJoin? && !e.req.VoiceLeave? { SameVoice(s, e); }
  }

  lemma StepRoomsWithin<C>(s: HubState<C>, e: Event<C>)
    requires Index(s) && Within(s.rooms, s.clients) && Enabled(s, e) && OnTime(s, e)
    ensures Within(Step(s, e).rooms, Step(s, e).clients)
  {
    if e.req.Unregister? {
      UnregisterRoomsWithin(s, e);
    } else {
      StepClients(s, e);
      forall r <- Step(s, e).rooms, d <- Step(s, e).rooms[r] ensures d in s.clients { NewMembers(s, e, r, d); }
    }
  }

  lemma StepVoiceWithin<C>(s: HubState<C>, e: Event<C>)
    requires Index(s) && Within(s.voice, s.clients) && Enabled(s, e) && OnTime(s, e)
    ensures Within(Step(s, e).voice, Step(s, e).clients)
  {
    StepClients(s, e);
    var s' := Step(s, e);
    if e.req.Unregister? {
      UnregisterRooms(s, e.req.c, e.choice.rooms, e.choice.voice);
      forall r <- s'.voice ensures s'.voice[r] <= s'.clients {
        assert InRoom(s'.voice, r) == InRoom(s.voice, r) - {e.req.c};
      }
    } else {
      forall r <- s'.voice, d <- s'.voice[r] ensures d in s.clients { NewMembers(s, e, r, d); }
    }
  }

  lemma StepBoxes<C>(s: HubState<C>, e: Event<C>, d: C)
    requires Index(s) && NoFault(s) && Enabled(s, e) && OnTime(s, e) && d in s.box
    ensures var s' := Step(s, e);
            && d in s'.box && !s'.box[d].sentWhenClosed && !s'.box[d].closedTwice
            && (s'.box[d].closed <==> s.box[d].closed || (e.req.Unregister? && e.req.c == d))
  {
    StepMail(s, e, d);
    OfferSeqEffect(s.box[d], Mail(s, e, d));
    MailGoesToOpenQueues(s, e, d);
    if s.box[d].closed { assert OfferSeq(s.box[d], []) == s.box[d]; }
  }

  lemma StepKeepsNoFault<C>(s: HubState<C>, e: Event<C>)
    requires Index(s) && NoFault(s) && Enabled(s, e) && OnTime(s, e)
    ensures NoFault(Step(s, e))
  {
    StepRoomsWithin(s, e);
    StepVoiceWithin(s, e);
    StepClients(s, e);
    var s' := Step(s, e);
    assert s'.box.Keys == s.box.Keys by { StepKeepsIndex(s, e); SameUsers(s, e); }
    forall d <- s'.box
      ensures !s'.box[d].sentWhenClosed && !s'.box[d].closedTwice && (d in s'.clients ==> !s'.box[d].closed)
    {
      StepBoxes(s, e, d);
    }
    assert s'.clients <= s'.box.Keys by { StepKeepsIndex(s, e); }
  }

  lemma InOrderPrefix<C>(es: seq<Event<C>>, k: nat)
    requires InOrder(es) && k <= |es|
    ensures InOrder(es[..k])
  {
    forall j | 0 <= j < k ensures Timely(es[..k][..j], es[..k][j]) {
      assert es[..k][..j] == es[..j];
    }
  }

  /** The clients of the hub, and the closed queues, by what the hub has consumed. */
  lemma {:induction false} ConsumedSoFar<C>(user: map<C, UserId>, es: seq<Event<C>>, c: C)
    requires IsRun(Fresh(user), es) && InOrder(es) && c in user
    ensures var s := Exec(Fresh(user), es);
            && NoFault(s)
            && (c in s.clients <==> RegisteredIn(es, c) && !UnregisteredIn(es, c))
            && c in s.box && (s.box[c].closed <==> UnregisteredIn(es, c))
    decreases |es|
  {
    if es != [] {
      var n := |es| - 1;
      var s, e := Exec(Fresh(user), es[..n]), es[n];
      InOrderPrefix(es, n);
      ConsumedSoFar(user, es[..n], c);
      assert Index(s) && s.user == user by { RunKeepsIndex(user, es[..n]); }
      if !e.req.Broadcast? { ConsumedSoFar(user, es[..n], e.req.c); }
      assert Timely(es[..n], e);
      StepKeepsNoFault(s, e);
      StepBoxes(s, e, c);
      StepClients(s, e);
      ConsumedOneMore(es, c);
    }
  }

  lemma ConsumedOneMore<C>(es: seq<Event<C>>, c: C)
    requires es != []
    ensures RegisteredIn(es, c) <==> RegisteredIn(es[..|es| - 1], c) || es[|es| - 1].req == Register(c)
    ensures UnregisteredIn(es, c) <==> UnregisteredIn(es[..|es| - 1], c) || es[|es| - 1].req == Unregister(c)
  {
    var n := |es| - 1;
    RegisteredOneMore(es, c);
    if UnregisteredIn(es[..n], c) {
      var i :| 0 <= i < n && es[..n][i].req == Unregister(c);
      assert es[i].req == Unregister(c);
    }
    if UnregisteredIn(es, c) {
      var i :| 0 <= i < |es| && es[i].req == Unregister(c);
      if i < n { assert es[..n][i].req == Unregister(c); }
    }
  }

  /** In every in-order run no queue is sent to after it was closed, none is closed twice, and the members of
      rooms and voice rooms are clients of the hub with open queues. */
  lemma NoSendOnClosed<C>(user: map<C, UserId>, es: seq<Event<C>>, c: C, r: RoomId)
    requires IsRun(Fresh(user), es) && InOrder(es) && c in user
    ensures var s := Exec(Fresh(user), es);
            && c in s.box && !s.box[c].sentWhenClosed && !s.box[c].closedTwice
            && (c in InRoom(s.rooms, r) || c in InRoom(s.voice, r) ==> c in s.clients)
            && (c in s.clients ==> !s.box[c].closed)
  {
    ConsumedSoFar(user, es, c);
  }
}
