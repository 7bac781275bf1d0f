/** The hub and its clients as the objects the server keeps, updated in place. Every method is proved against the
    step on values in HubModel; the ghost results record the order in which it iterated over a map. */
module Hubs {
  import opened Domain
  import opened Mailboxes
  import opened HubModel

  class Client {
    const userID: UserId
    var rooms: set<RoomId>
    var send: seq<Msg>
    var closed: bool
    ghost var box: Mailbox

    ghost predicate Valid()
      reads this
    {
      box.buf == send && box.closed == closed
    }

    constructor (user: UserId)
      ensures Valid() && userID == user && rooms == {} && box == EMPTY_MAILBOX
    {
      userID := user;
      rooms, send, closed, box := {}, [], false, EMPTY_MAILBOX;
    }

    /** A non-blocking send; a closed channel panics, which the mailbox records. */
    method Offer(m: Msg)
      requires Valid()
      modifies this`send, this`box
      ensures Valid() && box == Mailboxes.Offer(old(box), m)
    {
      if !closed && |send| < SEND_BUFFER_SIZE {
        send := send + [m];
      }
      box := Mailboxes.Offer(box, m);
    }

    method CloseSend()
      requires Valid()
      modifies this`closed, this`box
      ensures Valid() && box == Close(old(box))
    {
      closed := true;
      box := Close(box);
    }

    /** The write pump's receive: it writes the oldest message, waits while there is none, and ends when the channel is
        closed and drained. */
    method Receive() returns (turn: PumpTurn)
      requires Valid()
      modifies this`send, this`box
      ensures Valid() && box == Take(old(box)) && turn == TurnOf(old(box))
    {
      if send != [] {
        turn := Writes(send[0]);
        send := send[1..];
      } else if closed {
        turn := Ends;
      } else {
        turn := Waits;
      }
      box := Take(box);
    }
  }

  class Hub {
    var clients: set<Client>
    var rooms: map<RoomId, set<Client>>
    var voiceRooms: map<RoomId, set<Client>>
    var calls: seq<Call>
    /** Every connection that exists, registered or not, and a picture of each kept in step with the objects. */
    ghost const known: set<Client>
    ghost const users: map<Client, UserId>
    ghost var joined: map<Client, set<RoomId>>
    ghost var boxes: map<Client, Mailbox>

    ghost predicate Valid()
      reads this, known
    {
      && clients <= known
      && (forall r <- rooms :: rooms[r] <= known)
      && (forall r <- voiceRooms :: voiceRooms[r] <= known)
      && users.Keys == joined.Keys == boxes.Keys == known
      && (forall c <- known :: c.Valid() && users[c] == c.userID && joined[c] == c.rooms && boxes[c] == c.box)
    }

    ghost function State(): HubState<Client>
      reads this
    {
      HubState(users, clients, rooms, voiceRooms, joined, boxes, calls)
    }

    constructor (ghost connections: set<Client>)
      requires forall c <- connections :: c.Valid() && c.rooms == {} && c.box == EMPTY_MAILBOX
      ensures known == connections && Valid() && State() == Fresh(users)
    {
      clients, rooms, voiceRooms, calls := {}, map[], map[], [];
      known := connections;
      users := map c | c in connections :: c.userID;
      joined := map c | c in connections :: {};
      boxes := map c | c in connections :: EMPTY_MAILBOX;
    }

    /** One non-blocking send to one client. */
    method OfferTo(c: Client, m: Msg)
      requires Valid() && c in known
      modifies this`boxes, c`send, c`box
      ensures Valid() && boxes == old(boxes)[c := Mailboxes.Offer(old(boxes)[c], m)]
    {
      c.Offer(m);
      boxes := boxes[c := c.box];
    }

    /** The loop shared by every place that sends one message to a set of clients. */
    method OfferLoop(targets: set<Client>, m: Msg)
      requires Valid() && targets <= known
      modifies this`boxes, known`send, known`box
      ensures Valid() && boxes == OfferAll(old(boxes), targets, m)
    {
      var todo := targets;
      ghost var done := {};
      while todo != {}
        invariant Valid()
        invariant done + todo == targets && done !! todo
        invariant boxes == OfferAll(old(boxes), done, m)
        decreases |todo|
      {
        var c :| c in todo;
        OneDone(done, todo, c);
        OfferAllMore(old(boxes), done, c, m);
        OfferTo(c, m);
        todo, done := todo - {c}, done + {c};
      }
    }

    method OfferEach(targets: set<Client>, m: Msg)
      requires Valid() && targets <= known
      modifies this`boxes, known`send, known`box
      ensures Valid() && State() == Send(old(State()), targets, m)
    {
      OfferLoop(targets, m);
    }

    method Register(c: Client)
      requires Valid() && c in known
      modifies this
      ensures Valid() && State() == RegisterStep(old(State()), c)
    {
      clients := clients + {c};
    }

    method JoinRoom(c: Client, r: RoomId, lookup: Lookup) returns (ghost order: seq<Client>)
      requires Valid() && c in known
      modifies this, known
      ensures Valid()
      ensures Admits(old(State()), c, r, lookup) ==> Enumerates(order, InRoom(old(rooms), r) + {c})
      ensures State() == JoinStep(old(State()), c, r, lookup, order)
    {
      order := [];
      assert Joined(State(), c) == c.rooms;
      if r in c.rooms {
        return;
      }
      var refusal := Refuse(lookup, c.userID);
      if refusal.Some? {
        OfferEach({c}, Failure(refusal.value));
      } else {
        order := Welcome(c, r);
      }
    }

    /** The second half of joinRoom: enter the room, list its members and tell the joiner. */
    method Welcome(c: Client, r: RoomId) returns (ghost order: seq<Client>)
      requires Valid() && c in known
      modifies this, known
      ensures Valid() && Enumerates(order, InRoom(old(rooms), r) + {c})
      ensures State() == Send(Admit(old(State()), c, r), {c}, RoomJoined(r, Users(old(State()), order)))
    {
      EnterRoom(c, r);
      var members;
      members, order := ListUsers(rooms[r]);
      assert members == Users(old(State()), order);
      OfferEach({c}, RoomJoined(r, members));
    }

    /** The switch over the room's type. */
    method Refuse(lookup: Lookup, user: UserId) returns (refusal: Option<ErrorCode>)
      ensures refusal == Refusal(lookup, user)
    {
      refusal := None;
      match lookup {
        case Missing => refusal := Some(RoomNotFound);
        case Found(kind, owner, member) =>
          if kind == DM && !member {
            refusal := Some(Forbidden);
          } else if kind == Private && owner != user {
            if !member { refusal := Some(Forbidden); }
          }
      }
    }

    method EnterRoom(c: Client, r: RoomId)
      requires Valid() && c in known
      modifies this`joined, this`rooms, this`calls, c`rooms
      ensures Valid() && State() == Admit(old(State()), c, r)
    {
      Remember(c, r);
      Enlist(c, r);
      assert State() == old(State()).(joined := joined, rooms := rooms, calls := calls);
    }

    method Enlist(c: Client, r: RoomId)
      requires Valid() && c in known
      modifies this`rooms, this`calls
      ensures Valid() && rooms == old(rooms)[r := InRoom(old(rooms), r) + {c}]
      ensures calls == if r in old(rooms) then old(calls) else old(calls) + [Subscribe(r)]
    {
      if r in rooms {
        rooms := rooms[r := rooms[r] + {c}];
      } else {
        // a goroutine is started that subscribes to the room's channel
        calls, rooms := calls + [Subscribe(r)], rooms[r := {c}];
        assert {} + {c} == {c};
      }
    }

    /** `c.rooms[r] = struct{}{}` */
    method Remember(c: Client, r: RoomId)
      requires Valid() && c in known
      modifies this`joined, c`rooms
      ensures Valid() && joined == old(joined)[c := Joined(old(State()), c) + {r}]
    {
      c.rooms := c.rooms + {r};
      joined := joined[c := c.rooms];
    }

    /** Lists the users of a set of clients in iteration order. */
    method ListUsers(cs: set<Client>) returns (ids: seq<UserId>, ghost order: seq<Client>)
      requires Valid() && cs <= known
      ensures Enumerates(order, cs) && ids == Users(State(), order)
    {
      ids, order := CollectIds(cs);
      forall i | 0 <= i < |order| ensures ids[i] == UserOf(State(), order[i]) {
        assert order[i] in known;
      }
    }

    static method CollectIds(cs: set<Client>) returns (ids: seq<UserId>, ghost order: seq<Client>)
      ensures Enumerates(order, cs)
      ensures |ids| == |order| && forall i :: 0 <= i < |order| ==> order[i] in cs && ids[i] == order[i].userID
    {
      ids, order := [], [];
      var todo := cs;
      while todo != {}
        invariant todo <= cs
        invariant Enumerates(order, cs - todo)
        invariant |ids| == |order| && forall i :: 0 <= i < |order| ==> order[i] in cs && ids[i] == order[i].userID
        decreases |todo|
      {
        var c :| c in todo;
        EnumerateMore(order, cs - todo, c);
        OneLess(cs, todo, c);
        ids, order, todo := ids + [c.userID], order + [c], todo - {c};
      }
      assert cs - todo == cs;
    }

    method LeaveRoom(c: Client, r: RoomId)
      requires Valid() && c in known
      modifies this`joined, this`rooms, this`calls, c`rooms
      ensures Valid() && State() == LeaveStep(old(State()), c, r)
    {
      Forget(c, r);
      Delist(c, r);
      LeaveParts(old(State()), c, r);
    }

    method Delist(c: Client, r: RoomId)
      requires Valid() && c in known
      modifies this`rooms, this`calls
      ensures Valid()
      ensures rooms == if r !in old(rooms) then old(rooms)
                       else if old(rooms)[r] - {c} == {} then old(rooms) - {r}
                       else old(rooms)[r := old(rooms)[r] - {c}]
      ensures calls == if r in old(rooms) && old(rooms)[r] - {c} == {} then old(calls) + [Unsubscribe(r)]
                       else old(calls)
    {
      if r in rooms {
        var room := rooms[r] - {c};
        if room == {} {
          rooms, calls := rooms - {r}, calls + [Unsubscribe(r)];
        } else {
          rooms := rooms[r := room];
        }
      }
    }

    /** `delete(c.rooms, r)` */
    method Forget(c: Client, r: RoomId)
      requires Valid() && c in known
      modifies this`joined, c`rooms
      ensures Valid() && joined == old(joined)[c := Joined(old(State()), c) - {r}]
    {
      c.rooms := c.rooms - {r};
      joined := joined[c := c.rooms];
    }

    method EnterVoice(c: Client, r: RoomId)
      requires Valid() && c in known
      modifies this`voiceRooms
      ensures Valid() && voiceRooms == old(voiceRooms)[r := InRoom(old(voiceRooms), r) + {c}]
    {
      if r in voiceRooms {
        voiceRooms := voiceRooms[r := voiceRooms[r] + {c}];
      } else {
        voiceRooms := voiceRooms[r := {c}];
        assert {} + {c} == {c};
      }
    }

    method VoiceJoin(c: Client, r: RoomId) returns (ghost order: seq<Client>)
      requires Valid() && c in known
      modifies this`voiceRooms, this`boxes, known`send, known`box
      ensures Valid() && Enumerates(order, InRoom(old(voiceRooms), r) - {c})
      ensures State() == VoiceJoinStep(old(State()), c, r, order)
    {
      ghost var here := InRoom(voiceRooms, r);
      EnterVoice(c, r);
      assert voiceRooms[r] - {c} == here - {c};
      ghost var s1 := State();
      var participants;
      participants, order := ListUsers(voiceRooms[r] - {c});
      assert participants == Users(old(State()), order);
      OfferEach({c}, VoiceParticipants(r, participants));
      OfferEach(voiceRooms[r] - {c}, VoiceJoined(r, c.userID));
    }

    method VoiceLeave(c: Client, r: RoomId)
      requires Valid() && c in known
      modifies this`voiceRooms, this`boxes, known`send, known`box
      ensures Valid() && State() == VoiceLeaveStep(old(State()), c, r)
    {
      var left := {};
      if r in voiceRooms {
        left := voiceRooms[r] - {c};
        voiceRooms := if left == {} then voiceRooms - {r} else voiceRooms[r := left];
      }
      OfferEach(left, VoiceLeft(r, c.userID));
    }

    /** The clients sharing at least one room with c. */
    method PeersOf(c: Client) returns (peers: set<Client>)
      requires Valid() && c in known
      ensures peers == RoomPeers(State(), c) && peers <= known
    {
      peers := {};
      var todo := c.rooms;
      while todo != {}
        invariant todo <= c.rooms && peers <= known
        invariant peers == set r, d | r in c.rooms - todo && d in InRoom(rooms, r) && d != c :: d
        decreases |todo|
      {
        var r :| r in todo;
        ghost var before := peers;
        if r in rooms {
          peers := peers + (rooms[r] - {c});
        }
        assert peers == before + set d | d in InRoom(rooms, r) && d != c;
        assert forall q :: q in c.rooms - (todo - {r}) <==> q in c.rooms - todo || q == r;
        todo := todo - {r};
      }
    }

    method Unregister(c: Client) returns (ghost roomOrder: seq<RoomId>, ghost voiceOrder: seq<RoomId>)
      requires Valid() && c in known
      modifies this, known
      ensures Valid()
      ensures c in old(clients) ==> Enumerates(roomOrder, old(c.rooms)) && Enumerates(voiceOrder, old(voiceRooms.Keys))
      ensures State() == UnregisterStep(old(State()), c, roomOrder, voiceOrder)
    {
      roomOrder, voiceOrder := [], [];
      if c in clients {
        var peers := PeersOf(c);
        Drop(c);
        roomOrder := LeaveEvery(c);
        assert voiceRooms == old(voiceRooms) && Enumerates(roomOrder, old(c.rooms));
        voiceOrder := VoiceLeaveEvery(c);
        OfferEach(peers, Offline(c.userID));
      }
    }

    /** `delete(h.clients, c); close(c.send)` */
    method Drop(c: Client)
      requires Valid() && c in known
      modifies this`clients, this`boxes, c`closed, c`box
      ensures Valid() && State() == Disconnect(old(State()), c)
    {
      clients := clients - {c};
      CloseBox(c);
    }

    method CloseBox(c: Client)
      requires Valid() && c in known
      modifies this`boxes, c`closed, c`box
      ensures Valid() && boxes == old(boxes)[c := Close(old(boxes)[c])]
    {
      c.CloseSend();
      boxes := boxes[c := c.box];
    }

    method LeaveEvery(c: Client) returns (ghost order: seq<RoomId>)
      requires Valid() && c in known
      modifies this`joined, this`rooms, this`calls, c`rooms
      ensures Valid() && Enumerates(order, old(c.rooms)) && State() == LeaveAll(old(State()), c, order)
    {
      order := [];
      var todo := c.rooms;
      while todo != {}
        invariant Valid()
        invariant todo <= old(c.rooms) && Enumerates(order, old(c.rooms) - todo)
        invariant State() == LeaveAll(old(State()), c, order)
        decreases |todo|
      {
        var r :| r in todo;
        EnumerateMore(order, old(c.rooms) - todo, r);
        OneLess(old(c.rooms), todo, r);
        LeaveOneMore(old(State()), c, order, r);
        LeaveRoom(c, r);
        order, todo := order + [r], todo - {r};
      }
    }

    method VoiceLeaveIfThere(c: Client, r: RoomId)
      requires Valid() && c in known
      modifies this`voiceRooms, this`boxes, known`send, known`box
      ensures Valid() && State() == VoiceLeaveIfIn(old(State()), c, r)
    {
      if r in voiceRooms && c in voiceRooms[r] {
        VoiceLeave(c, r);
      }
    }

    method VoiceLeaveEvery(c: Client) returns (ghost order: seq<RoomId>)
      requires Valid() && c in known
      modifies this`voiceRooms, this`boxes, known`send, known`box
      ensures Valid() && Enumerates(order, old(voiceRooms.Keys)) && State() == VoiceLeaveAll(old(State()), c, order)
    {
      order := [];
      var todo := voiceRooms.Keys;
      while todo != {}
        invariant Valid()
        invariant todo <= old(voiceRooms.Keys) && Enumerates(order, old(voiceRooms.Keys) - todo)
        invariant State() == VoiceLeaveAll(old(State()), c, order)
        decreases |todo|
      {
        var r :| r in todo;
        EnumerateMore(order, old(voiceRooms.Keys) - todo, r);
        OneLess(old(voiceRooms.Keys), todo, r);
        LeaveOneMore(old(State()), c, order, r);
        VoiceLeaveIfThere(c, r);
        order, todo := order + [r], todo - {r};
      }
    }

    method DeliverLocal(r: RoomId, m: Msg)
      requires Valid()
      modifies this`boxes, known`send, known`box
      ensures Valid() && State() == Send(old(State()), InRoom(old(rooms), r), m)
    {
      OfferEach(if r in rooms then rooms[r] else {}, m);
    }

    /** Sends a voice signal to the first client of the target user the iteration meets. */
    method RelaySignal(c: Client, r: RoomId, target: UserId) returns (ghost pick: Option<Client>)
      requires Valid() && c in known
      modifies this`boxes, known`send, known`box
      ensures Valid() && IsFirstMatch(old(State()), r, target, pick)
      ensures State() == SignalStep(old(State()), c, r, target, pick)
    {
      var here := if r in voiceRooms then voiceRooms[r] else {};
      var todo := here;
      while todo != {}
        invariant todo <= here && forall p <- here - todo :: p.userID != target
        decreases |todo|
      {
        var p :| p in todo;
        if p.userID == target {
          pick := Some(p);
          if target != NIL_USER {
            OfferEach({p}, VoiceSignal(r, c.userID));
          }
          return;
        }
        todo := todo - {p};
      }
      pick := None;
    }

    /** One receive of c's write pump. */
    method Drain(c: Client) returns (turn: PumpTurn)
      requires Valid() && c in known
      modifies this`boxes, c`send, c`box
      ensures Valid() && boxes == old(boxes)[c := Take(old(boxes)[c])] && turn == TurnOf(old(boxes)[c])
    {
      turn := c.Receive();
      boxes := boxes[c := c.box];
    }

    /** One turn of the loop in `Run`: whatever the select received is handled to the end. */
    method Handle(req: Request<Client>) returns (ghost choice: Choice<Client>)
      requires Valid() && (req.Broadcast? || req.c in known)
      modifies this, known
      ensures Valid()
      ensures Enabled(old(State()), Event(req, choice)) && State() == Step(old(State()), Event(req, choice))
    {
      choice := Choice([], [], [], None);
      match req {
        case Register(c) => Register(c);
        case Unregister(c) =>
          ghost var ro, vo := Unregister(c);
          choice := Choice(ro, vo, [], None);
        case Broadcast(r, data) => DeliverLocal(r, Payload(r, data));
        case WriterTakes(_) => HandlePump(req);
        case ReadError(_) => HandlePump(req);
        case _ => choice := HandleMessage(req);
      }
    }

    /** What a client's own goroutines do to its channel beside the hub. */
    method HandlePump(req: Request<Client>)
      requires Valid() && (req.WriterTakes? || req.ReadError?) && req.c in known
      modifies this`boxes, known`send, known`box
      ensures Valid() && State() == Step(old(State()), Event(req, Choice([], [], [], None)))
    {
      if req.WriterTakes? {
        var turn := Drain(req.c);
      } else {
        OfferEach({req.c}, Failure(InvalidMessage));
      }
    }

    method Post(c: Client, r: RoomId, data: nat, saved: bool)
      requires Valid() && c in known
      modifies this`calls, this`boxes, known`send, known`box
      ensures Valid()
      ensures State() == if saved then old(State()).(calls := old(State()).calls + [Publish(r, data)])
                         else Send(old(State()), {c}, Failure(SendFailed))
    {
      if saved {
        calls := calls + [Publish(r, data)];
      } else {
        OfferEach({c}, Failure(SendFailed));
      }
    }

    /** The switch over the types of client messages. */
    method HandleMessage(req: Request<Client>) returns (ghost choice: Choice<Client>)
      requires Valid() && !req.Broadcast? && req.c in known
      requires !req.Register? && !req.Unregister? && !req.WriterTakes? && !req.ReadError?
      modifies this, known
      ensures Valid()
      ensures Enabled(old(State()), Event(req, choice)) && State() == Step(old(State()), Event(req, choice))
    {
      choice := Choice([], [], [], None);
      match req {
        case JoinRoom(c, r, lookup) =>
          ghost var order := JoinRoom(c, r, lookup);
          choice := Choice([], [], order, None);
        case LeaveRoom(c, r) => LeaveRoom(c, r);
        case Chat(c, r, data, saved) => Post(c, r, data, saved);
        case TypingNote(c, r, present) => if present { DeliverLocal(r, Typing(r, c.userID)); }
        case VoiceJoin(c, r) =>
          ghost var order := VoiceJoin(c, r);
          choice := Choice([], [], order, None);
        case VoiceLeave(c, r) => VoiceLeave(c, r);
        case Signal(c, r, target) =>
          ghost var pick := RelaySignal(c, r, target);
          choice := Choice([], [], [], pick);
      }
    }

    /** `Run` over any finite sequence of received requests is a run of the model, for some iteration orders. */
    method Run(received: seq<Request<Client>>) returns (ghost es: seq<Event<Client>>)
      requires Valid()
      requires forall i :: 0 <= i < |received| ==> received[i].Broadcast? || received[i].c in known
      modifies this, known
      ensures Valid() && IsRun(old(State()), es) && State() == Exec(old(State()), es)
      ensures Requests(es) == received
    {
      es := [];
      ghost var s0 := State();
      for i := 0 to |received|
        invariant Valid()
        invariant IsRun(s0, es) && State() == Exec(s0, es)
        invariant Requests(es) == received[..i]
      {
        es := HandleNext(s0, es, received[i]);
        assert received[..i + 1] == received[..i] + [received[i]];
      }
    }

    method HandleNext(ghost s0: HubState<Client>, ghost es: seq<Event<Client>>, req: Request<Client>)
      returns (ghost more: seq<Event<Client>>)
      requires Valid() && (req.Broadcast? || req.c in known)
      requires IsRun(s0, es) && State() == Exec(s0, es)
      modifies this, known
      ensures Valid() && IsRun(s0, more) && State() == Exec(s0, more)
      ensures Requests(more) == Requests(es) + [req]
    {
      ghost var choice := Handle(req);
      RunSnoc(s0, es, Event(req, choice));
      more := es + [Event(req, choice)];
    }
  }
}
