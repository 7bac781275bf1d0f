/** An owner invites a guest to a private room; the guest accepts, joins over the socket, and is kicked. */
module HubStoreWitness {
  import opened Domain
  import opened Mailboxes
  import opened HubModel
  import opened HubAnySchedule
  import opened HubStore
  import S = StoreModel
  import T = StoreThreads

  const HOST: UserId := 7
  const GUEST: UserId := 8
  const DEN: RoomId := 5
  const INVITE: S.InviteId := 3
  const CLIENT: nat := 1
  const USERS: map<nat, UserId> := map[CLIENT := GUEST]
  const ROOM: S.Room := S.Room(Private, HOST, "den")

  ghost function Founded(): S.Tables {
    S.PutMember(S.InsertRoom(S.NO_ROWS, DEN, ROOM), DEN, HOST, S.Owner)
  }

  lemma Founding() returns (sts: seq<T.Store>, ms: seq<T.Move>)
    ensures T.IsHistory(sts, ms) && sts[|ms|] == T.Store(Founded(), multiset{})
  {
    var st1 := T.Store(S.InsertRoom(S.NO_ROWS, DEN, ROOM), multiset{T.PutOwner(DEN, HOST)});
    var st2 := T.Store(Founded(), multiset{});
    var create := T.Start(S.Create(DEN, "den", Private, HOST));
    assert T.IsHistory([T.EMPTY_STORE], []);
    assert S.TrimSpace("den") == "den";
    assert T.Next(T.EMPTY_STORE, create) == st1;
    T.OneMoreMove([T.EMPTY_STORE], [], create, st1);
    assert T.Next(st1, T.Resume(T.PutOwner(DEN, HOST))) == st2;
    T.OneMoreMove([T.EMPTY_STORE] + [st1], [] + [create], T.Resume(T.PutOwner(DEN, HOST)), st2);
    sts, ms := [T.EMPTY_STORE] + [st1] + [st2], [] + [create] + [T.Resume(T.PutOwner(DEN, HOST))];
  }

  ghost function Asked(): S.Tables {
    S.InsertInvite(Founded(), INVITE, DEN, HOST, GUEST)
  }

  lemma Asking() returns (sts: seq<T.Store>, ms: seq<T.Move>)
    ensures T.IsHistory(sts, ms) && sts[|ms|] == T.Store(Asked(), multiset{})
  {
    sts, ms := Founding();
    var task := T.WriteInvite(INVITE, DEN, HOST, GUEST);
    var st1, st2 := T.Store(Founded(), multiset{task}), T.Store(Asked(), multiset{});
    var invite := T.Start(S.InviteUser(INVITE, DEN, HOST, GUEST));
    assert T.Next(sts[|ms|], invite) == st1;
    T.OneMoreMove(sts, ms, invite, st1);
    assert T.Next(st1, T.Resume(task)) == st2;
    T.OneMoreMove(sts + [st1], ms + [invite], T.Resume(task), st2);
    sts, ms := sts + [st1] + [st2], ms + [invite] + [T.Resume(task)];
  }

  ghost function Accepted(): S.Tables {
    S.PutMember(S.SetStatus(Asked(), INVITE, S.Accepted), DEN, GUEST, S.Member)
  }

  lemma Accepting() returns (sts: seq<T.Store>, ms: seq<T.Move>)
    ensures T.IsHistory(sts, ms) && sts[|ms|] == T.Store(Accepted(), multiset{})
  {
    sts, ms := Asking();
    var claim, put := T.ClaimInvite(INVITE, DEN, GUEST), T.PutInvitee(DEN, GUEST);
    var st1 := T.Store(Asked(), multiset{claim});
    var st2 := T.Store(S.SetStatus(Asked(), INVITE, S.Accepted), multiset{put});
    var st3 := T.Store(Accepted(), multiset{});
    var accept := T.Start(S.AcceptInvite(INVITE, GUEST));
    assert T.Next(sts[|ms|], accept) == st1;
    T.OneMoreMove(sts, ms, accept, st1);
    assert T.Next(st1, T.Resume(claim)) == st2;
    T.OneMoreMove(sts + [st1], ms + [accept], T.Resume(claim), st2);
    assert T.Next(st2, T.Resume(put)) == st3;
    T.OneMoreMove(sts + [st1] + [st2], ms + [accept] + [T.Resume(claim)], T.Resume(put), st3);
    sts, ms := sts + [st1] + [st2] + [st3], ms + [accept] + [T.Resume(claim)] + [T.Resume(put)];
  }

  const REGISTER: Event<nat> := Event(Register(CLIENT), Choice([], [], [], None))
  const JOIN: Event<nat> := Event(JoinRoom(CLIENT, DEN, Found(Private, HOST, true)), Choice([], [], [CLIENT], None))

  lemma Registers() returns (ys: seq<Server<nat>>, acts: seq<Act<nat>>)
    ensures IsServerRun(USERS, ys, acts)
    ensures ys[|acts|] == Server(Step(Fresh(USERS), REGISTER), T.Store(Accepted(), multiset{}), None)
  {
    var sts, ms := Accepting();
    ys, acts := IdleHub(USERS, sts, ms);
    var y := Server(Step(Fresh(USERS), REGISTER), sts[|ms|], None);
    Extended(USERS, ys, acts, Handles(REGISTER), y);
    ys, acts := ys + [y], acts + [Handles(REGISTER)];
  }

  /** The server between the two questions of the join. */
  ghost function MidJoin(): Server<nat> {
    Server(Step(Fresh(USERS), REGISTER), T.Store(Accepted(), multiset{T.CheckJoiner(DEN, GUEST)}),
           Some(Glimpse(CLIENT, DEN, Some(ROOM))))
  }

  lemma LooksUp() returns (ys: seq<Server<nat>>, acts: seq<Act<nat>>)
    ensures IsServerRun(USERS, ys, acts) && ys[|acts|] == MidJoin()
  {
    ys, acts := Registers();
    var st := ys[|acts|].store;
    assert T.Next(st, T.Start(S.HubJoin(DEN, GUEST))) == MidJoin().store;
    Extended(USERS, ys, acts, Looks(CLIENT, DEN), MidJoin());
    ys, acts := ys + [MidJoin()], acts + [Looks(CLIENT, DEN)];
  }

  lemma HubJoins(h: HubState<nat>)
    requires h == Step(Fresh(USERS), REGISTER)
    ensures Enabled(h, JOIN) && AsksStore(h, JOIN) && CLIENT in InRoom(Step(h, JOIN).rooms, DEN)
    ensures UserOf(h, CLIENT) == GUEST
  {
    assert Elements([CLIENT]) == {CLIENT} == InRoom(h.rooms, DEN) + {CLIENT};
  }

  lemma Admitted(y: Server<nat>)
    requires y.seen == Some(Glimpse(CLIENT, DEN, Some(ROOM))) && S.IsMember(y.store.tables, DEN, GUEST)
    requires Enabled(y.hub, JOIN) && AsksStore(y.hub, JOIN) && UserOf(y.hub, CLIENT) == GUEST
    ensures Can(y, Handles(JOIN)) && After(y, Handles(JOIN)).hub == Step(y.hub, JOIN)
    ensures After(y, Handles(JOIN)).store == T.Next(y.store, T.Resume(T.CheckJoiner(DEN, GUEST)))
  {}

  lemma MayJoin(y: Server<nat>)
    requires y.hub == Step(Fresh(USERS), REGISTER) && y.seen == Some(Glimpse(CLIENT, DEN, Some(ROOM)))
    requires S.IsMember(y.store.tables, DEN, GUEST)
    ensures Can(y, Handles(JOIN)) && CLIENT in InRoom(After(y, Handles(JOIN)).hub.rooms, DEN)
    ensures After(y, Handles(JOIN)).store.tables == y.store.tables
  {
    HubJoins(y.hub);
    Admitted(y);
  }

  lemma GuestIsMember()
    ensures S.IsMember(Accepted(), DEN, GUEST)
  {
    assert (DEN, GUEST) in Accepted().members;
  }

  lemma Joining() returns (ys: seq<Server<nat>>, acts: seq<Act<nat>>)
    ensures IsServerRun(USERS, ys, acts) && CLIENT in InRoom(ys[|acts|].hub.rooms, DEN)
    ensures ys[|acts|].store.tables == Accepted()
  {
    ys, acts := LooksUp();
    var y := ys[|acts|];
    GuestIsMember();
    MayJoin(y);
    Extended(USERS, ys, acts, Handles(JOIN), After(y, Handles(JOIN)));
    ys, acts := ys + [After(y, Handles(JOIN))], acts + [Handles(JOIN)];
  }

  /** A run after which a kicked guest's client is still in the private room and is offered its messages. */
  lemma KickedGuestHears(data: nat) returns (ys: seq<Server<nat>>, acts: seq<Act<nat>>)
    ensures IsServerRun(USERS, ys, acts)
    ensures var y := ys[|acts|];
            && IsPrivate(y.store.tables, DEN) && !Belongs(y.store.tables, DEN, GUEST)
            && CLIENT in InRoom(y.hub.rooms, DEN)
            && Mail(y.hub, Event(Broadcast(DEN, data), Choice([], [], [], None)), CLIENT) == [Payload(DEN, data)]
  {
    ys, acts := Joining();
    ys, acts := KickedStillHears(USERS, ys, acts, CLIENT, DEN, HOST,
                                 Event(Broadcast(DEN, data), Choice([], [], [], None)), data);
  }
}
