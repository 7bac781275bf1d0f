/** The way of a chat message through the whole system: from the client that sent it to the clients in the room. */
module ChatFlow {
  import opened Domain
  import opened Mailboxes
  import opened HubModel
  import opened HubIndex
  import opened HubAnySchedule
  import opened HubInOrder
  import opened HubMessages
  import opened PubSubModel
  import opened HubPubSub
  import opened DeliveryOrder

  // ---------- From the hub to the subscriptions ----------

  /** The hub handles a message of c to r that the store has saved. */
  ghost predicate HandlesChat<C>(m: Move<C>, c: C, r: RoomId, data: nat) {
    m.HandleEvent? && m.e.req == Chat(c, r, data, true)
  }

  /** Move m does so, and move k makes the hub's next call. */
  ghost predicate ChatCall<C>(ms: seq<Move<C>>, m: nat, k: nat, c: C, r: RoomId, data: nat) {
    && m < k < |ms| && HandlesChat(ms[m], c, r, data) && ms[k].MakeCall?
    && forall i | m < i < k :: !ms[i].MakeCall?
  }

  lemma ChatDue<C>(y: System<C>, m: Move<C>, c: C, r: RoomId, data: nat)
    requires HandlesChat(m, c, r, data)
    ensures Next(y, m).due == [Publish(r, data)]
  {
    var s := y.hub;
    ChatPublishes(s, m.e);
    assert (s.calls + [Publish(r, data)])[|s.calls|..] == [Publish(r, data)];
  }

  lemma DueWaits<C>(y: System<C>, m: Move<C>)
    requires Possible(y, m) && y.due != [] && !m.MakeCall?
    ensures Next(y, m).due == y.due && Next(y, m).hub == y.hub
  {}

  /** Until the hub makes the call it handles nothing else. */
  lemma {:induction false} ChatWaits<C>(user: map<C, UserId>, ys: seq<System<C>>, ms: seq<Move<C>>, m: nat, n: nat,
                                        c: C, r: RoomId, data: nat)
    requires IsSystemRun(user, ys, ms) && m < n <= |ms|
    requires HandlesChat(ms[m], c, r, data) && forall i | m < i < n :: !ms[i].MakeCall?
    ensures ys[n].due == [Publish(r, data)] && ys[n].hub.rooms == ys[m].hub.rooms
    decreases n
  {
    assert Follows(ys, ms, n - 1);
    if m == n - 1 {
      ChatDue(ys[m], ms[m], c, r, data);
      ChatPublishes(ys[m].hub, ms[m].e);
    } else {
      ChatWaits(user, ys, ms, m, n - 1, c, r, data);
      DueWaits(ys[n - 1], ms[n - 1]);
    }
  }

  lemma PublishHands<C>(y: System<C>, r: RoomId, data: nat, id: SubId)
    requires y.due == [Publish(r, data)]
    ensures Next(y, MakeCall).due == [] && Publishes(y, MakeCall, r, data)
    ensures Queue(Next(y, MakeCall), id) == Queue(y, id) + if id in Receivers(y.ps, r) then [Copy(r, id, data)] else []
  {
    PublishedQueue(y, r, data, id);
  }

  /** The call made for a saved message publishes it: each subscription of the room that receives gets one copy, behind
      what it already holds, the other queues stay as they are, and the hub owes no further call. */
  lemma SavedChatIsHandedOut<C>(user: map<C, UserId>, ys: seq<System<C>>, ms: seq<Move<C>>, m: nat, k: nat, c: C,
                                r: RoomId, data: nat, id: SubId)
    requires IsSystemRun(user, ys, ms) && ChatCall(ms, m, k, c, r, data)
    ensures Queue(ys[k + 1], id) == Queue(ys[k], id)
              + if id in Receivers(ys[k].ps, r) then [Copy(r, id, data)] else []
    ensures ys[k + 1].due == [] && ys[k].hub.rooms == ys[m].hub.rooms && Publishes(ys[k], ms[k], r, data)
  {
    ChatWaits(user, ys, ms, m, k, c, r, data);
    assert Follows(ys, ms, k);
    PublishHands(ys[k], r, data, id);
  }

  // ---------- From the subscriptions to the clients ----------

  lemma {:induction false} PassedOnTwice<C>(ys: seq<System<C>>, ms: seq<Move<C>>, i: nat, j: nat, n: nat, copy: Copy)
    requires i < j < n <= |ms| <= |ys|
    requires copy in Taken(ys[i], ms[i], copy.sub) && copy in Taken(ys[j], ms[j], copy.sub)
    ensures Times(ys, ms, n, copy) >= 2
    decreases n
  {
    if j < n - 1 {
      PassedOnTwice(ys, ms, i, j, n - 1, copy);
    } else {
      PassedOnCounts(ys, ms, i, j, copy);
    }
  }

  /** An open room has its subscription in the table, and no other subscription receives, when nothing is missed or
      outstanding. */
  lemma OpenRoomInTable<C>(user: map<C, UserId>, ys: seq<System<C>>, ms: seq<Move<C>>, n: nat, r: RoomId)
    requires IsSystemRun(user, ys, ms) && n <= |ms| && SubCalls(ys[n].due) == []
    requires ys[n].ps.missed[r] == 0 && Settled(ys[n].ps, r) && InRoom(ys[n].hub.rooms, r) != {}
    ensures r in ys[n].ps.subs && Receivers(ys[n].ps, r) == {ys[n].ps.subs[r]}
  {
    AdapterFollowsHub(user, ys, ms, n);
    SystemMatches(user, ys, ms, n);
    TableIsOpenRooms(PsSteps(ys, ms, n), r);
    OneReceiver(user, ys, ms, n, r);
  }

  /** A message published once, by move n, with nothing missed or outstanding, is offered once to each client that is
      in the room when it is brought to the hub, by move j, and to nobody else. */
  lemma OfferedWhenBrought<C>(user: map<C, UserId>, ys: seq<System<C>>, ms: seq<Move<C>>, n: nat, j: nat, r: RoomId,
                              data: nat, d: C)
    requires IsSystemRun(user, ys, ms) && InOrder(HubEvents(ys, ms, |ms|)) && d in user && n < |ms| && j < |ms|
    requires Publishes(ys[n], ms[n], r, data) && Publications(ys, ms, |ms|, r, data) == 1
    requires ys[n].ps.missed[r] == 0 && Settled(ys[n].ps, r) && Brings(ys[j], ms[j], r, data)
    ensures Offers(ys[|ms|].hub, d, r, data) == if d in InRoom(ys[j].hub.rooms, r) then 1 else 0
  {
    var end, copy := |ms|, Copy(r, ms[j].id, data);
    BroughtByTable(user, ys, ms, n, j, r, data);
    OneReceiver(user, ys, ms, n, r);
    OfferedWhenHeard(user, ys, ms, end, d, r, data);
    forall id: SubId ensures Times(ys, ms, end, Copy(r, id, data)) <= if id == copy.sub then 1 else 0 {
      WhatBecomesOf(user, ys, ms, n, Copy(r, id, data));
    }
    PassedOnCounts(ys, ms, j, end, copy);
    var k := TheForward(user, ys, ms, end, copy, d);
    if k < j { PassedOnTwice(ys, ms, k, j, end, copy); }
    if j < k { PassedOnTwice(ys, ms, j, k, end, copy); }
  }

  lemma HandedToTable<C>(user: map<C, UserId>, ys: seq<System<C>>, ms: seq<Move<C>>, m: nat, k: nat, c: C, r: RoomId,
                         data: nat)
    requires IsSystemRun(user, ys, ms) && ChatCall(ms, m, k, c, r, data)
    requires ys[k].ps.missed[r] == 0 && Settled(ys[k].ps, r) && InRoom(ys[k].hub.rooms, r) != {}
    ensures r in ys[k].ps.subs && Publishes(ys[k], ms[k], r, data)
    ensures forall id: SubId :: Queue(ys[k + 1], id) == Queue(ys[k], id)
              + if id == ys[k].ps.subs[r] then [Copy(r, id, data)] else []
  {
    ChatWaits(user, ys, ms, m, k, c, r, data);
    assert [Publish(r, data)][..0] == [];
    OpenRoomInTable(user, ys, ms, k, r);
    forall id: SubId ensures Queue(ys[k + 1], id) == Queue(ys[k], id)
              + if id == ys[k].ps.subs[r] then [Copy(r, id, data)] else []
    {
      SavedChatIsHandedOut(user, ys, ms, m, k, c, r, data, id);
    }
    SavedChatIsHandedOut(user, ys, ms, m, k, c, r, data, 0);
  }

  /** From client to clients. Move m handles a message that a client sent to r and the store saved, move k makes the
      call for it, when r has clients and nothing is missed or outstanding for r, and the message is published by no
      other move. Then the subscription in the table is handed the one copy of it; and once some move j has brought that
      to the hub, it has been offered once to each client that was in the room at that time, and to nobody else. */
  lemma SavedChatIsOffered<C>(user: map<C, UserId>, ys: seq<System<C>>, ms: seq<Move<C>>, m: nat, k: nat, c: C,
                              r: RoomId, data: nat, d: C)
    requires IsSystemRun(user, ys, ms) && InOrder(HubEvents(ys, ms, |ms|)) && d in user
    requires ChatCall(ms, m, k, c, r, data) && Publications(ys, ms, |ms|, r, data) == 1
    requires ys[k].ps.missed[r] == 0 && Settled(ys[k].ps, r) && InRoom(ys[k].hub.rooms, r) != {}
    ensures r in ys[k].ps.subs
    ensures forall id: SubId :: Queue(ys[k + 1], id) == Queue(ys[k], id)
              + if id == ys[k].ps.subs[r] then [Copy(r, id, data)] else []
    ensures forall j: nat | j < |ms| && Brings(ys[j], ms[j], r, data) ::
              Offers(ys[|ms|].hub, d, r, data) == if d in InRoom(ys[j].hub.rooms, r) then 1 else 0
  {
    HandedToTable(user, ys, ms, m, k, c, r, data);
    forall j: nat | j < |ms| && Brings(ys[j], ms[j], r, data)
      ensures Offers(ys[|ms|].hub, d, r, data) == if d in InRoom(ys[j].hub.rooms, r) then 1 else 0
    {
      OfferedWhenBrought(user, ys, ms, k, j, r, data, d);
    }
  }
}
