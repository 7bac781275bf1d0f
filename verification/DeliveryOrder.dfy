/** The order in which messages reach the hub and its clients: one subscription forwards in the order of publication. */
module DeliveryOrder {
  import opened Domain
  import opened Mailboxes
  import opened HubModel
  import opened HubIndex
  import opened HubAnySchedule
  import opened HubInOrder
  import opened PubSubModel
  import opened HubPubSub

  lemma {:induction false} ReceivedGrows<C>(ys: seq<System<C>>, ms: seq<Move<C>>, m: nat, n: nat, id: SubId)
    requires m <= n <= |ms| <= |ys|
    ensures Received(ys, ms, m, id) <= Received(ys, ms, n, id)
    decreases n
  {
    if m < n { ReceivedGrows(ys, ms, m, n - 1, id); }
  }

  /** The move that passed on the i-th copy. */
  lemma {:induction false} PassedOnBy<C>(ys: seq<System<C>>, ms: seq<Move<C>>, n: nat, id: SubId, i: nat)
    returns (k: nat)
    requires n <= |ms| <= |ys| && i < |Forwarded(ys, ms, n, id)|
    ensures k < n && Taken(ys[k], ms[k], id) == [Forwarded(ys, ms, n, id)[i]]
  {
    if i < |Forwarded(ys, ms, n - 1, id)| { k := PassedOnBy(ys, ms, n - 1, id, i); } else { k := n - 1; }
  }

  lemma OnceAt<T>(s: seq<T>, x: T, i: nat, j: nat)
    requires i < |s| && j < |s| && s[i] == x && s[j] == x && multiset(s)[x] == 1
    ensures i == j
  {
    if i < j { TwiceAt(s, x, i, j); }
    if j < i { TwiceAt(s, x, j, i); }
  }

  lemma TwiceAt<T>(s: seq<T>, x: T, i: nat, j: nat)
    requires i < j < |s| && s[i] == x && s[j] == x
    ensures multiset(s)[x] >= 2
  {
    assert s == s[..i] + [x] + s[i + 1..j] + [x] + s[j + 1..];
  }

  /** Where a copy stands among those its subscription has received. */
  lemma ReceivedAt<C>(ys: seq<System<C>>, ms: seq<Move<C>>, n: nat, end: nat, copy: Copy)
    requires n < end <= |ms| <= |ys| && Given(ys[n], ms[n], copy.sub) == [copy]
    ensures var at := |Received(ys, ms, n, copy.sub)|;
            at < |Received(ys, ms, n + 1, copy.sub)| <= |Received(ys, ms, end, copy.sub)|
            && Received(ys, ms, end, copy.sub)[at] == copy
  {
    ReceivedGrows(ys, ms, n + 1, end, copy.sub);
    assert Received(ys, ms, n + 1, copy.sub) == Received(ys, ms, n, copy.sub) + [copy];
  }

  /** Order of delivery. Two messages handed to the same subscription, by moves n1 and n2, reach the hub in that
      order: when the second is passed on, the first has been. (Different subscriptions of one room, before and after
      it was closed, are not ordered.) */
  lemma ForwardedInOrder<C>(user: map<C, UserId>, ys: seq<System<C>>, ms: seq<Move<C>>, n1: nat, n2: nat, a: Copy,
                            b: Copy, k: nat) returns (j: nat)
    requires IsSystemRun(user, ys, ms) && n1 < n2 < |ms| && k < |ms| && a.sub == b.sub
    requires Given(ys[n1], ms[n1], a.sub) == [a] && Given(ys[n2], ms[n2], b.sub) == [b]
    requires Arrivals(ys, ms, |ms|, b) == 1
    requires Taken(ys[k], ms[k], b.sub) == [b]
    ensures j < k && Taken(ys[j], ms[j], a.sub) == [a]
  {
    var id, end := a.sub, |ms|;
    FirstInFirstOut(user, ys, ms, k, id);
    ReceivedGrows(ys, ms, k, end, id);
    ReceivedAt(ys, ms, n1, end, a);
    ReceivedAt(ys, ms, n2, end, b);
    ReceivedGrows(ys, ms, n1 + 1, n2, id);
    var all, i := Received(ys, ms, end, id), |Received(ys, ms, n1, id)|;
    var through := Forwarded(ys, ms, k, id) + Queue(ys[k], id);
    assert through[|Forwarded(ys, ms, k, id)|] == b;
    ArrivalsCount(ys, ms, end, b);
    OnceAt(all, b, |Forwarded(ys, ms, k, id)|, |Received(ys, ms, n2, id)|);
    assert Forwarded(ys, ms, k, id)[i] == through[i] == all[i] == a;
    j := PassedOnBy(ys, ms, k, id, i);
  }

  // ---------- As the clients see it ----------

  /** What d's channel has been offered, in order. */
  ghost function Offered<C>(s: HubState<C>, d: C): seq<Msg> {
    if d in s.box then s.box[d].offered else []
  }

  lemma StepOffers<C>(s: HubState<C>, e: Event<C>, d: C)
    requires Index(s) && Enabled(s, e)
    ensures Offered(s, d) <= Offered(Step(s, e), d)
  {
    if d in s.box {
      StepMail(s, e, d);
      if !TouchesQueue(s, e, d) { OfferSeqEffect(s.box[d], Mail(s, e, d)); }
    }
  }

  lemma BroadcastOffers<C>(s: HubState<C>, e: Event<C>, d: C, r: RoomId, data: nat)
    requires Index(s) && NoFault(s) && Enabled(s, e) && e.req == Broadcast(r, data) && d in InRoom(s.rooms, r)
    ensures Offered(Step(s, e), d) == Offered(s, d) + [Payload(r, data)]
  {
    StepMail(s, e, d);
    OfferSeqEffect(s.box[d], [Payload(r, data)]);
  }

  lemma HubIndexed<C>(user: map<C, UserId>, ys: seq<System<C>>, ms: seq<Move<C>>, n: nat)
    requires IsSystemRun(user, ys, ms) && n <= |ms|
    ensures Index(ys[n].hub)
  {
    HubMatches(user, ys, ms, n);
    RunKeepsIndex(user, HubEvents(ys, ms, n));
  }

  lemma HubSound<C>(user: map<C, UserId>, ys: seq<System<C>>, ms: seq<Move<C>>, n: nat, d: C)
    requires IsSystemRun(user, ys, ms) && n <= |ms| && d in user
    ensures InOrder(HubEvents(ys, ms, n)) ==> NoFault(ys[n].hub)
  {
    HubMatches(user, ys, ms, n);
    if InOrder(HubEvents(ys, ms, n)) { ConsumedSoFar(user, HubEvents(ys, ms, n), d); }
  }

  lemma {:induction false} InOrderUpTo<C>(ys: seq<System<C>>, ms: seq<Move<C>>, m: nat, n: nat)
    requires m <= n <= |ms| <= |ys| && InOrder(HubEvents(ys, ms, n))
    ensures InOrder(HubEvents(ys, ms, m))
    decreases n
  {
    if m < n {
      InOrderBefore(ys, ms, n);
      InOrderUpTo(ys, ms, m, n - 1);
    }
  }

  lemma MoveOffers<C>(user: map<C, UserId>, ys: seq<System<C>>, ms: seq<Move<C>>, n: nat, d: C)
    requires IsSystemRun(user, ys, ms) && 0 < n <= |ms|
    ensures Offered(ys[n - 1].hub, d) <= Offered(ys[n].hub, d)
  {
    var part := HubMove(user, ys, ms, n);
    HubIndexed(user, ys, ms, n - 1);
    if part != [] { StepOffers(ys[n - 1].hub, part[0], d); }
  }

  lemma {:induction false} OfferedStays<C>(user: map<C, UserId>, ys: seq<System<C>>, ms: seq<Move<C>>, m: nat, n: nat,
                                           d: C)
    requires IsSystemRun(user, ys, ms) && m <= n <= |ms|
    ensures Offered(ys[m].hub, d) <= Offered(ys[n].hub, d)
    decreases n
  {
    if m < n {
      OfferedStays(user, ys, ms, m, n - 1, d);
      MoveOffers(user, ys, ms, n, d);
    }
  }

  /** The event a copy becomes when it is brought to the hub. */
  lemma BroughtEvent<C>(user: map<C, UserId>, ys: seq<System<C>>, ms: seq<Move<C>>, n: nat, r: RoomId, data: nat)
    returns (e: Event<C>)
    requires IsSystemRun(user, ys, ms) && 0 < n <= |ms| && Brings(ys[n - 1], ms[n - 1], r, data)
    ensures e.req == Broadcast(r, data) && Enabled(ys[n - 1].hub, e) && ys[n].hub == Step(ys[n - 1].hub, e)
  {
    var part := HubMoveBrings(user, ys, ms, n, r, data);
    e := part[0];
  }

  lemma HubReady<C>(user: map<C, UserId>, ys: seq<System<C>>, ms: seq<Move<C>>, n: nat, d: C)
    requires IsSystemRun(user, ys, ms) && n <= |ms| && d in user && InOrder(HubEvents(ys, ms, n))
    ensures Index(ys[n].hub) && NoFault(ys[n].hub)
  {
    HubIndexed(user, ys, ms, n);
    HubSound(user, ys, ms, n, d);
  }

  lemma EventOffers<C>(s: HubState<C>, e: Event<C>, s': HubState<C>, d: C, r: RoomId, data: nat)
    requires Index(s) && NoFault(s) && Enabled(s, e) && e.req == Broadcast(r, data) && s' == Step(s, e)
    ensures d in InRoom(s.rooms, r) ==> Offered(s', d) == Offered(s, d) + [Payload(r, data)]
  {
    if d in InRoom(s.rooms, r) { BroadcastOffers(s, e, d, r, data); }
  }

  /** A copy that reaches the hub while d is in the room is offered to d next. */
  lemma ReachOffers<C>(user: map<C, UserId>, ys: seq<System<C>>, ms: seq<Move<C>>, n: nat, d: C, r: RoomId, data: nat)
    requires IsSystemRun(user, ys, ms) && 0 < n <= |ms| && d in user && InOrder(HubEvents(ys, ms, n - 1))
    requires Reaches(ys[n - 1], ms[n - 1], d, r, data)
    ensures Offered(ys[n].hub, d) == Offered(ys[n - 1].hub, d) + [Payload(r, data)]
  {
    var e := BroughtEvent(user, ys, ms, n, r, data);
    HubReady(user, ys, ms, n - 1, d);
    EventOffers(ys[n - 1].hub, e, ys[n].hub, d, r, data);
  }

  /** The position of the message a move offers to d, among all messages ever offered to d. */
  lemma OfferedAt<C>(user: map<C, UserId>, ys: seq<System<C>>, ms: seq<Move<C>>, k: nat, n: nat, d: C, r: RoomId,
                     data: nat)
    requires IsSystemRun(user, ys, ms) && k + 1 == n <= |ms| && d in user && InOrder(HubEvents(ys, ms, |ms|))
    requires Reaches(ys[k], ms[k], d, r, data)
    ensures var at := |Offered(ys[k].hub, d)|;
            at < |Offered(ys[n].hub, d)| <= |Offered(ys[|ms|].hub, d)|
            && Offered(ys[|ms|].hub, d)[at] == Payload(r, data)
  {
    InOrderUpTo(ys, ms, k, |ms|);
    ReachOffers(user, ys, ms, n, d, r, data);
    OfferedStays(user, ys, ms, n, |ms|, d);
  }

  lemma {:induction false} PassedOnCounts<C>(ys: seq<System<C>>, ms: seq<Move<C>>, k: nat, n: nat, copy: Copy)
    requires k < n <= |ms| <= |ys| && copy in Taken(ys[k], ms[k], copy.sub)
    ensures Times(ys, ms, n, copy) >= 1
    decreases n
  {
    if k < n - 1 { PassedOnCounts(ys, ms, k, n - 1, copy); }
  }

  /** The subscription that brings a message published once, with nothing missed or outstanding, is the one in the
      table. */
  lemma BroughtByTable<C>(user: map<C, UserId>, ys: seq<System<C>>, ms: seq<Move<C>>, n: nat, k: nat, r: RoomId,
                          data: nat)
    requires IsSystemRun(user, ys, ms) && n < |ms| && k < |ms|
    requires Publishes(ys[n], ms[n], r, data) && Publications(ys, ms, |ms|, r, data) == 1
    requires ys[n].ps.missed[r] == 0 && Settled(ys[n].ps, r) && Brings(ys[k], ms[k], r, data)
    ensures r in ys[n].ps.subs && ms[k].id == ys[n].ps.subs[r]
    ensures Taken(ys[k], ms[k], ms[k].id) == [Copy(r, ms[k].id, data)]
    ensures Arrivals(ys, ms, |ms|, Copy(r, ms[k].id, data)) == 1
  {
    var copy := Copy(r, ms[k].id, data);
    OwnCopies(user, ys, ms, k, copy.sub);
    BringsOwn(ys[k], ms[k], r, data, copy.sub);
    PassedOnCounts(ys, ms, k, |ms|, copy);
    CopiesConserved(user, ys, ms, |ms|, copy);
    ReceivedAtPublication(ys, ms, |ms|, n, copy);
    OneReceiver(user, ys, ms, n, r);
  }

  lemma HandedByPublication<C>(y: System<C>, m: Move<C>, r: RoomId, data: nat, id: SubId)
    requires Publishes(y, m, r, data) && id in Receivers(y.ps, r)
    ensures Given(y, m, id) == [Copy(r, id, data)]
  {}

  /** Delivery in order. x is published to r before y, each by one of the moves n1 and n2 and y by no other; at the
      second publication nothing is missed or outstanding for r, and its subscription received the first one too. If a
      client is offered y by move k, then x was brought to the hub before, and a client that was in the room then is
      offered x before y. */
  lemma PublishedInOrder<C>(user: map<C, UserId>, ys: seq<System<C>>, ms: seq<Move<C>>, n1: nat, n2: nat, r: RoomId,
                            x: nat, y: nat, k: nat, d: C) returns (j: nat)
    requires IsSystemRun(user, ys, ms) && InOrder(HubEvents(ys, ms, |ms|)) && d in user && n1 < n2 < |ms| && k < |ms|
    requires Publishes(ys[n1], ms[n1], r, x) && Publishes(ys[n2], ms[n2], r, y)
    requires Publications(ys, ms, |ms|, r, y) == 1
    requires ys[n2].ps.missed[r] == 0 && Settled(ys[n2].ps, r)
    requires r in ys[n2].ps.subs && ys[n2].ps.subs[r] in Receivers(ys[n1].ps, r)
    requires Reaches(ys[k], ms[k], d, r, y)
    ensures j < k && Brings(ys[j], ms[j], r, x)
    ensures d in InRoom(ys[j].hub.rooms, r) ==>
              var offered, p, q := Offered(ys[|ms|].hub, d), |Offered(ys[j].hub, d)|, |Offered(ys[k].hub, d)|;
              p < q < |offered| && offered[p] == Payload(r, x) && offered[q] == Payload(r, y)
  {
    BroughtByTable(user, ys, ms, n2, k, r, y);
    OneReceiver(user, ys, ms, n2, r);
    var id := ys[n2].ps.subs[r];
    HandedByPublication(ys[n1], ms[n1], r, x, id);
    HandedByPublication(ys[n2], ms[n2], r, y, id);
    j := ForwardedInOrder(user, ys, ms, n1, n2, Copy(r, id, x), Copy(r, id, y), k);
    if d in InRoom(ys[j].hub.rooms, r) {
      OfferedAt(user, ys, ms, j, j + 1, d, r, x);
      OfferedAt(user, ys, ms, k, k + 1, d, r, y);
      OfferedStays(user, ys, ms, j + 1, k, d);
    }
  }
}
