/** Voice rosters: what each participant is told agrees with who is really in the voice room. */
module HubVoice {
  import opened Domain
  import opened Mailboxes
  import opened HubModel
  import opened HubIndex
  import opened HubAnySchedule
  import opened HubInOrder

  /** A client's picture of voice room r: reset by voice_participants, extended by voice_joined, reduced by
      voice_left. */
  ghost function See(view: set<UserId>, m: Msg, r: RoomId): set<UserId> {
    match m
    case VoiceParticipants(q, us) => if q == r then set u | u in us else view
    case VoiceJoined(q, u) => if q == r then view + {u} else view
    case VoiceLeft(q, u) => if q == r then view - {u} else view
    case _ => view
  }

  ghost function View(start: set<UserId>, ms: seq<Msg>, r: RoomId): set<UserId> {
    if ms == [] then start else See(View(start, ms[..|ms| - 1], r), ms[|ms| - 1], r)
  }

  lemma {:induction false} ViewThen(start: set<UserId>, ms: seq<Msg>, more: seq<Msg>, r: RoomId)
    ensures View(start, ms + more, r) == View(View(start, ms, r), more, r)
    decreases |more|
  {
    if more == [] {
      assert ms + more == ms;
    } else {
      ViewThen(start, ms, more[..|more| - 1], r);
      assert (ms + more)[..|ms + more| - 1] == ms + more[..|more| - 1];
    }
  }

  lemma ViewOneMore(start: set<UserId>, ms: seq<Msg>, m: Msg, r: RoomId)
    ensures View(start, ms + [m], r) == See(View(start, ms, r), m, r)
  {
    assert (ms + [m])[..|ms|] == ms;
  }

  /** Reading at most one more message. */
  lemma ViewAtMostOneMore(start: set<UserId>, ms: seq<Msg>, more: seq<Msg>, r: RoomId)
    requires |more| <= 1
    ensures View(start, ms + more, r) == if more == [] then View(start, ms, r) else See(View(start, ms, r), more[0], r)
  {
    if more == [] { assert ms + more == ms; } else { ViewOneMore(start, ms, more[0], r); assert more == [more[0]]; }
  }

  /** The users of the other clients in voice room r. */
  ghost function Others<C>(s: HubState<C>, r: RoomId, p: C): set<UserId> {
    set q | q in InRoom(s.voice, r) && q != p :: UserOf(s, q)
  }

  /** What p was told about voice room r is its roster. */
  ghost predicate Agrees<C>(s: HubState<C>, r: RoomId, p: C) {
    p in s.box && View({}, s.box[p].offered, r) == Others(s, r, p)
  }

  /** No two clients of the hub belong to the same user. */
  ghost predicate OnePerUser<C>(s: HubState<C>) {
    forall c, d | c in s.clients && d in s.clients && c != d :: UserOf(s, c) != UserOf(s, d)
  }

  lemma {:induction false} ViewOfLeaves(start: set<UserId>, ms: seq<Msg>, u: UserId, r: RoomId)
    requires forall m <- ms :: m.VoiceLeft? && m.user == u
    ensures View(start, ms, r) == if VoiceLeft(r, u) in ms then start - {u} else start
    decreases |ms|
  {
    if ms != [] {
      ViewOfLeaves(start, ms[..|ms| - 1], u, r);
      assert ms == ms[..|ms| - 1] + [ms[|ms| - 1]];
    }
  }

  lemma ViewOfGoodbyes<C>(start: set<UserId>, voice: map<RoomId, set<C>>, u: UserId, c: C, d: C, order: seq<RoomId>,
                          r: RoomId)
    ensures View(start, Goodbyes(voice, u, c, d, order), r)
         == if r in order && Goodbye(voice, u, c, d, r) != [] then start - {u} else start
  {
    forall m ensures m in Goodbyes(voice, u, c, d, order) ==> m.VoiceLeft? && m.user == u {
      WhatGoodbyesSay(voice, u, c, d, order, m);
    }
    WhatGoodbyesSay(voice, u, c, d, order, VoiceLeft(r, u));
    ViewOfLeaves(start, Goodbyes(voice, u, c, d, order), u, r);
  }

  ghost predicate VoiceEvent<C>(e: Event<C>) {
    e.req.VoiceJoin? || e.req.VoiceLeave? || e.req.Unregister?
  }

  /** m does not change anybody's picture of voice room r. */
  ghost predicate Quiet(m: Msg, r: RoomId) {
    m.VoiceParticipants? || m.VoiceJoined? || m.VoiceLeft? ==> m.room != r
  }

  lemma QuietReading(told: seq<Msg>, ms: seq<Msg>, r: RoomId)
    requires |ms| <= 1 && (ms != [] ==> Quiet(ms[0], r))
    ensures View({}, told + ms, r) == View({}, told, r)
  {
    ViewAtMostOneMore({}, told, ms, r);
  }

  lemma QuietMail<C>(s: HubState<C>, e: Event<C>, d: C, r: RoomId)
    requires !e.req.Unregister? && (VoiceEvent(e) ==> e.req.room != r)
    ensures |Mail(s, e, d)| <= 1 && (Mail(s, e, d) != [] ==> Quiet(Mail(s, e, d)[0], r))
  {}

  /** The participants list sent to a joiner is its roster. */
  lemma ParticipantsAreOthers<C>(s: HubState<C>, r: RoomId, c: C, order: seq<C>)
    requires Enumerates(order, InRoom(s.voice, r) - {c})
    ensures (set u | u in Users(s, order)) == Others(s, r, c)
  {
    EnumeratedUsers(s, order, InRoom(s.voice, r) - {c});
  }

  lemma SameRoster<C>(s: HubState<C>, s': HubState<C>, r: RoomId, p: C)
    requires s'.user == s.user && InRoom(s'.voice, r) == InRoom(s.voice, r)
    ensures Others(s', r, p) == Others(s, r, p)
  {}

  lemma JoinerView<C>(s: HubState<C>, s': HubState<C>, r: RoomId, c: C, order: seq<C>, told: seq<Msg>)
    requires s'.user == s.user && InRoom(s'.voice, r) == InRoom(s.voice, r) + {c}
    requires Enumerates(order, InRoom(s.voice, r) - {c})
    ensures View({}, told + [VoiceParticipants(r, Users(s, order))], r) == Others(s', r, c)
  {
    ViewOneMore({}, told, VoiceParticipants(r, Users(s, order)), r);
    ParticipantsAreOthers(s, r, c, order);
    assert Others(s', r, c) == Others(s, r, c);
  }

  lemma PeerView<C>(s: HubState<C>, s': HubState<C>, r: RoomId, c: C, p: C, told: seq<Msg>)
    requires s'.user == s.user && InRoom(s'.voice, r) == InRoom(s.voice, r) + {c} && p != c
    requires View({}, told, r) == Others(s, r, p)
    ensures View({}, told + [VoiceJoined(r, UserOf(s, c))], r) == Others(s', r, p)
  {
    ViewOneMore({}, told, VoiceJoined(r, UserOf(s, c)), r);
    assert Others(s', r, p) == Others(s, r, p) + {UserOf(s, c)};
  }

  lemma JoinView<C>(s: HubState<C>, e: Event<C>, r: RoomId, p: C)
    requires Enabled(s, e) && e.req.VoiceJoin?
    requires p in InRoom(Step(s, e).voice, r)
    requires p in s.box && (p in InRoom(s.voice, r) ==> Agrees(s, r, p))
    ensures View({}, s.box[p].offered + Mail(s, e, p), r) == Others(Step(s, e), r, p)
  {
    var c, s' := e.req.c, Step(s, e);
    VoiceJoinFrame(s, c, e.req.room, e.choice.peers);
    if r != e.req.room {
      QuietMail(s, e, p, r);
      QuietReading(s.box[p].offered, Mail(s, e, p), r);
      SameRoster(s, s', r, p);
    } else if p == c {
      JoinerView(s, s', r, c, e.choice.peers, s.box[p].offered);
    } else {
      PeerView(s, s', r, c, p, s.box[p].offered);
    }
  }

  /** Nobody but c and p in the voice room belongs to c's user. */
  ghost predicate SoleConnection<C>(s: HubState<C>, r: RoomId, c: C, p: C) {
    forall q <- InRoom(s.voice, r) | q != c && q != p :: UserOf(s, q) != UserOf(s, c)
  }

  /** The roster after c left is the one before without c's user, unless another participant has that user. */
  lemma LeftRoster<C>(s: HubState<C>, s': HubState<C>, r: RoomId, c: C, p: C)
    requires s'.user == s.user && InRoom(s'.voice, r) == InRoom(s.voice, r) - {c} && p != c
    ensures Others(s', r, p) == Others(s, r, p) - {UserOf(s, c)} <==> SoleConnection(s, r, c, p)
  {
    if SoleConnection(s, r, c, p) {
      forall u ensures u in Others(s', r, p) <==> u in Others(s, r, p) - {UserOf(s, c)} {
        if q :| q in InRoom(s.voice, r) && q != p && UserOf(s, q) == u && u != UserOf(s, c) {
          assert q in InRoom(s'.voice, r);
        }
        if q :| q in InRoom(s'.voice, r) && q != p && UserOf(s', q) == u {
          assert q in InRoom(s.voice, r);
        }
      }
    } else {
      var q :| q in InRoom(s.voice, r) && q != c && q != p && UserOf(s, q) == UserOf(s, c);
      assert q in InRoom(s'.voice, r);
      assert UserOf(s', q) in Others(s', r, p);
    }
  }

  /** A client parts from voice room r: it leaves it, in it or not, or it disconnects while in it. */
  ghost predicate PartsFrom<C>(s: HubState<C>, e: Event<C>, r: RoomId) {
    || (e.req.VoiceLeave? && e.req.room == r)
    || (e.req.Unregister? && e.req.c in InRoom(s.voice, r))
  }

  lemma LeaveViewIff<C>(s: HubState<C>, e: Event<C>, r: RoomId, p: C)
    requires e.req.VoiceLeave? && e.req.room == r
    requires p in InRoom(s.voice, r) && p != e.req.c && Agrees(s, r, p)
    ensures View({}, s.box[p].offered + Mail(s, e, p), r) == Others(Step(s, e), r, p)
       <==> SoleConnection(s, r, e.req.c, p)
  {
    VoiceLeaveFrame(s, e.req.c, r);
    ViewOneMore({}, s.box[p].offered, VoiceLeft(r, UserOf(s, e.req.c)), r);
    LeftRoster(s, Step(s, e), r, e.req.c, p);
  }

  lemma FarewellView(told: seq<Msg>, byes: seq<Msg>, notice: seq<Msg>, u: UserId, r: RoomId)
    requires notice == [] || notice == [Offline(u)]
    ensures View({}, told + (byes + notice), r) == View({}, told + byes, r)
  {
    assert told + (byes + notice) == told + byes + notice;
    ViewAtMostOneMore({}, told + byes, notice, r);
  }

  /** What p reads when c disconnects. */
  lemma DisconnectReading<C>(s: HubState<C>, e: Event<C>, r: RoomId, p: C)
    requires Enabled(s, e) && e.req.Unregister? && e.req.c in s.clients && e.req.c in s.joined
    requires p in s.box && p != e.req.c && p in InRoom(s.voice, r)
    ensures View({}, s.box[p].offered + Mail(s, e, p), r)
         == View({}, s.box[p].offered, r) - if e.req.c in InRoom(s.voice, r) then {UserOf(s, e.req.c)} else {}
  {
    var c, vo, u, told := e.req.c, e.choice.voice, UserOf(s, e.req.c), s.box[p].offered;
    var byes := Goodbyes(s.voice, u, c, p, vo);
    FarewellView(told, byes, if p in RoomPeers(s, c) then [Offline(u)] else [], u, r);
    ViewThen({}, told, byes, r);
    ViewOfGoodbyes(View({}, told, r), s.voice, u, c, p, vo, r);
    assert r in vo by { assert r in Elements(vo); }
  }

  lemma DisconnectViewIff<C>(s: HubState<C>, e: Event<C>, r: RoomId, p: C)
    requires Enabled(s, e) && e.req.Unregister? && e.req.c in s.clients && e.req.c in s.joined
    requires p in InRoom(s.voice, r) && p != e.req.c && Agrees(s, r, p)
    ensures View({}, s.box[p].offered + Mail(s, e, p), r) == Others(Step(s, e), r, p)
       <==> (e.req.c in InRoom(s.voice, r) ==> SoleConnection(s, r, e.req.c, p))
  {
    var c, s' := e.req.c, Step(s, e);
    UnregisterRooms(s, c, e.choice.rooms, e.choice.voice);
    assert InRoom(s'.voice, r) == InRoom(s.voice, r) - {c};
    DisconnectReading(s, e, r, p);
    if c in InRoom(s.voice, r) { LeftRoster(s, s', r, c, p); } else { SameRoster(s, s', r, p); }
  }

  /** The event is a disconnect of a client the hub knows, if it is one. */
  ghost predicate Known<C>(s: HubState<C>, e: Event<C>) {
    e.req.Unregister? ==> e.req.c in s.clients && e.req.c in s.joined
  }

  /** How one event changes p's picture of voice room r. */
  lemma NextView<C>(s: HubState<C>, e: Event<C>, r: RoomId, p: C)
    requires Enabled(s, e) && Known(s, e) && p in s.box && p in InRoom(Step(s, e).voice, r)
    requires p in InRoom(s.voice, r) ==> Agrees(s, r, p)
    ensures PartsFrom(s, e, r) || e.req.Unregister? ==> p in InRoom(s.voice, r) && p != e.req.c
    ensures View({}, s.box[p].offered + Mail(s, e, p), r) == Others(Step(s, e), r, p)
       <==> (PartsFrom(s, e, r) ==> SoleConnection(s, r, e.req.c, p))
  {
    if e.req.VoiceJoin? {
      JoinView(s, e, r, p);
    } else if e.req.Unregister? {
      UnregisterRooms(s, e.req.c, e.choice.rooms, e.choice.voice);
      assert InRoom(Step(s, e).voice, r) == InRoom(s.voice, r) - {e.req.c};
      DisconnectViewIff(s, e, r, p);
    } else if e.req.VoiceLeave? {
      VoiceLeaveFrame(s, e.req.c, e.req.room);
      if e.req.room == r { LeaveViewIff(s, e, r, p); } else { UnmovedView(s, e, r, p); }
    } else {
      SameVoice(s, e);
      assert Step(s, e).user == s.user by { SameUsers(s, e); }
      UnmovedView(s, e, r, p);
    }
  }

  lemma UnmovedView<C>(s: HubState<C>, e: Event<C>, r: RoomId, p: C)
    requires !e.req.Unregister? && (VoiceEvent(e) ==> e.req.room != r)
    requires Step(s, e).user == s.user && InRoom(Step(s, e).voice, r) == InRoom(s.voice, r)
    requires p in InRoom(s.voice, r) && Agrees(s, r, p)
    ensures View({}, s.box[p].offered + Mail(s, e, p), r) == Others(Step(s, e), r, p)
  {
    QuietMail(s, e, p, r);
    QuietReading(s.box[p].offered, Mail(s, e, p), r);
    SameRoster(s, Step(s, e), r, p);
  }

  lemma StepKeepsViewIff<C>(s: HubState<C>, e: Event<C>, r: RoomId, p: C)
    requires Index(s) && NoFault(s) && Enabled(s, e) && OnTime(s, e)
    requires p in InRoom(Step(s, e).voice, r) && (p in InRoom(s.voice, r) ==> Agrees(s, r, p))
    ensures PartsFrom(s, e, r) ==> p in InRoom(s.voice, r) && p != e.req.c
    ensures Agrees(Step(s, e), r, p) <==> (PartsFrom(s, e, r) ==> SoleConnection(s, r, e.req.c, p))
  {
    assert p in s.box by { StepVoiceWithin(s, e); SameUsers(s, e); StepKeepsIndex(s, e); }
    NextView(s, e, r, p);
    OfferedGrows(s, e, p);
  }

  lemma OfferedGrows<C>(s: HubState<C>, e: Event<C>, p: C)
    requires Index(s) && NoFault(s) && Enabled(s, e) && OnTime(s, e) && p in s.box
    requires e.req.Unregister? ==> e.req.c != p
    ensures p in Step(s, e).box && Step(s, e).box[p].offered == s.box[p].offered + Mail(s, e, p)
  {
    StepMail(s, e, p);
    MailGoesToOpenQueues(s, e, p);
    OfferSeqEffect(s.box[p], Mail(s, e, p));
    if s.box[p].closed || e.req.WriterTakes? { assert s.box[p].offered + [] == s.box[p].offered; }
  }

  lemma ReadyToStep<C>(user: map<C, UserId>, es: seq<Event<C>>)
    requires IsRun(Fresh(user), es) && InOrder(es) && es != [] && user.Keys != {}
    ensures var s, e := Exec(Fresh(user), es[..|es| - 1]), es[|es| - 1];
            Index(s) && NoFault(s) && OnTime(s, e) && Enabled(s, e)
  {
    var n := |es| - 1;
    InOrderPrefix(es, n);
    RunKeepsIndex(user, es[..n]);
    var c :| c in user;
    ConsumedSoFar(user, es[..n], if es[n].req.Broadcast? then c else es[n].req.c);
    assert Timely(es[..n], es[n]);
  }

  /** Whenever a client parts from voice room r with p there, its user has no other connection there than p. */
  ghost predicate PartsAlone<C>(user: map<C, UserId>, es: seq<Event<C>>, r: RoomId, p: C) {
    forall k | 0 <= k < |es| :: AloneAt(Exec(Fresh(user), es[..k]), es[k], r, p)
  }

  ghost predicate AloneAt<C>(s: HubState<C>, e: Event<C>, r: RoomId, p: C) {
    PartsFrom(s, e, r) && p in InRoom(s.voice, r) && p != e.req.c ==> SoleConnection(s, r, e.req.c, p)
  }

  lemma PartsAlonePrefix<C>(user: map<C, UserId>, es: seq<Event<C>>, r: RoomId, p: C)
    requires PartsAlone(user, es, r, p) && es != []
    ensures PartsAlone(user, es[..|es| - 1], r, p)
    ensures AloneAt(Exec(Fresh(user), es[..|es| - 1]), es[|es| - 1], r, p)
  {
    var n := |es| - 1;
    forall k | 0 <= k < n ensures AloneAt(Exec(Fresh(user), es[..n][..k]), es[..n][k], r, p) {
      assert es[..n][..k] == es[..k];
    }
  }

  lemma {:induction false} RunKeepsView<C>(user: map<C, UserId>, es: seq<Event<C>>, r: RoomId, p: C)
    requires IsRun(Fresh(user), es) && InOrder(es) && PartsAlone(user, es, r, p) && p in user
    requires p in InRoom(Exec(Fresh(user), es).voice, r)
    ensures Agrees(Exec(Fresh(user), es), r, p)
    decreases |es|
  {
    if es != [] {
      var n := |es| - 1;
      InOrderPrefix(es, n);
      PartsAlonePrefix(user, es, r, p);
      if p in InRoom(Exec(Fresh(user), es[..n]).voice, r) { RunKeepsView(user, es[..n], r, p); }
      ReadyToStep(user, es);
      StepKeepsViewIff(Exec(Fresh(user), es[..n]), es[n], r, p);
    }
  }

  lemma {:induction false} NothingLost<T>(whole: seq<T>, kept: seq<T>)
    requires Interleaves(whole, kept, [])
    ensures whole == kept
    decreases |whole|
  {
    if whole != [] {
      NothingLost(whole[..|whole| - 1], kept[..|kept| - 1]);
      assert kept == kept[..|kept| - 1] + [kept[|kept| - 1]];
    }
  }

  /** In every in-order run in which nobody parts from voice room r beside another connection of its user: a
      participant from whose queue nothing was dropped, once it has read its queue, sees exactly the users of the
      other participants. Repeated joins, leaves by clients that were not in the room and disconnects are all
      included. */
  lemma VoiceViewsAgree<C>(user: map<C, UserId>, es: seq<Event<C>>, r: RoomId, p: C)
    requires IsRun(Fresh(user), es) && InOrder(es) && PartsAlone(user, es, r, p)
    requires p in InRoom(Exec(Fresh(user), es).voice, r)
    ensures var s := Exec(Fresh(user), es);
            && p in s.box
            && (s.box[p].dropped == [] ==> View({}, s.box[p].taken + s.box[p].buf, r) == Others(s, r, p))
  {
    RunKeepsIndex(user, es);
    assert p in user;
    RunKeepsView(user, es, r, p);
    var b := Exec(Fresh(user), es).box[p];
    if b.dropped == [] { NothingLost(b.offered, b.taken + b.buf); }
  }

  /** When c parts from voice room r, by a leave or a disconnect, a view that agreed with the roster still does exactly
      when no other participant than its owner belongs to c's user. */
  lemma PartingKeepsViewIff<C>(user: map<C, UserId>, es: seq<Event<C>>, e: Event<C>, r: RoomId, p: C)
    requires IsRun(Fresh(user), es + [e]) && InOrder(es + [e])
    requires var s := Exec(Fresh(user), es);
             PartsFrom(s, e, r) && p in InRoom(s.voice, r) && p != e.req.c && Agrees(s, r, p)
    ensures p in InRoom(Exec(Fresh(user), es + [e]).voice, r)
    ensures Agrees(Exec(Fresh(user), es + [e]), r, p) <==> SoleConnection(Exec(Fresh(user), es), r, e.req.c, p)
  {
    var s := Exec(Fresh(user), es);
    assert (es + [e])[..|es|] == es;
    assert p in user by { RunKeepsIndex(user, es); }
    ReadyToStep(user, es + [e]);
    StaysInVoice(s, e, r, p);
    StepKeepsViewIff(s, e, r, p);
  }

  lemma StaysInVoice<C>(s: HubState<C>, e: Event<C>, r: RoomId, p: C)
    requires Enabled(s, e) && Known(s, e) && PartsFrom(s, e, r) && p in InRoom(s.voice, r) && p != e.req.c
    ensures p in InRoom(Step(s, e).voice, r)
  {
    if e.req.Unregister? { UnregisterRooms(s, e.req.c, e.choice.rooms, e.choice.voice); }
    else { VoiceLeaveFrame(s, e.req.c, e.req.room); }
  }

  /** At every moment of the run each user has at most one client in the hub. */
  ghost predicate OneConnectionPerUser<C>(user: map<C, UserId>, es: seq<Event<C>>) {
    forall k :: 0 <= k <= |es| ==> OnePerUser(Exec(Fresh(user), es[..k]))
  }

  lemma AloneWhenOnePerUser<C>(s: HubState<C>, e: Event<C>, r: RoomId, p: C)
    requires OnePerUser(s) && Within(s.voice, s.clients) && OnTime(s, e)
    ensures AloneAt(s, e, r, p)
  {}

  /** One connection per user is enough: then nobody ever parts beside another connection of its user. */
  lemma OneConnectionPartsAlone<C>(user: map<C, UserId>, es: seq<Event<C>>, r: RoomId, p: C)
    requires IsRun(Fresh(user), es) && InOrder(es) && OneConnectionPerUser(user, es) && p in user
    ensures PartsAlone(user, es, r, p)
  {
    forall k | 0 <= k < |es| ensures AloneAt(Exec(Fresh(user), es[..k]), es[k], r, p) {
      PrefixReady(user, es, k);
      AloneWhenOnePerUser(Exec(Fresh(user), es[..k]), es[k], r, p);
    }
  }

  lemma PrefixReady<C>(user: map<C, UserId>, es: seq<Event<C>>, k: nat)
    requires IsRun(Fresh(user), es) && InOrder(es) && k < |es| && user.Keys != {}
    ensures var s := Exec(Fresh(user), es[..k]);
            Within(s.voice, s.clients) && OnTime(s, es[k])
  {
    assert es[..k + 1][..k] == es[..k];
    RunPrefix(Fresh(user), es, k + 1);
    InOrderPrefix(es, k + 1);
    ReadyToStep(user, es[..k + 1]);
  }
}
