/** The hub's state as a value and every event of its loop as a step on it. `C` is the type of client
    identities: the class `Hub` uses object references, the run witnesses use numbers.

    A Go map is iterated in an unspecified order, so each event carries a `Choice` recording the orders the
    runtime picked, and every property is proved for all of them. */
module HubModel {
  import opened Domain
  import opened Mailboxes

  const NIL_USER: UserId := 0

  /** What the room store answers while a join is handled. */
  datatype Lookup = Missing | Found(kind: RoomKind, owner: UserId, member: bool)

  /** A call on the pub/sub port, in the order the hub makes them. */
  datatype Call = Subscribe(room: RoomId) | Unsubscribe(room: RoomId) | Publish(room: RoomId, data: nat)

  datatype HubState<C> = HubState(
    user: map<C, UserId>,              // every connection ever made, with its user
    clients: set<C>,                   // h.clients
    rooms: map<RoomId, set<C>>,        // h.rooms
    voice: map<RoomId, set<C>>,        // h.voiceRooms
    joined: map<C, set<RoomId>>,       // c.rooms
    box: map<C, Mailbox>,              // c.send
    calls: seq<Call>                   // calls made on the broadcaster
  )

  datatype Request<C> =
    | Register(c: C)
    | Unregister(c: C)
    | JoinRoom(c: C, room: RoomId, lookup: Lookup)
    | LeaveRoom(c: C, room: RoomId)
    | Chat(c: C, room: RoomId, data: nat, saved: bool)
    | TypingNote(c: C, room: RoomId, present: bool)
    | VoiceJoin(c: C, room: RoomId)
    | VoiceLeave(c: C, room: RoomId)
    | Signal(c: C, room: RoomId, target: UserId)
    | Broadcast(room: RoomId, data: nat)
    | ReadError(c: C)                  // the read pump reports invalid JSON on c's channel
    | WriterTakes(c: C)                // the write pump dequeues

  /** The iteration orders of one event: over c.rooms, over h.voiceRooms, over the clients of one room,
      and the peer a signal reached first. */
  datatype Choice<C> = Choice(rooms: seq<RoomId>, voice: seq<RoomId>, peers: seq<C>, pick: Option<C>)

  datatype Event<C> = Event(req: Request<C>, choice: Choice<C>)

  ghost function Elements<T>(order: seq<T>): set<T> {
    set x | x in order
  }

  /** The order lists each element of s once: what ranging over a map's keys yields. */
  ghost predicate Enumerates<T>(order: seq<T>, s: set<T>) {
    && Elements(order) == s
    && forall i, j :: 0 <= i < j < |order| ==> order[i] != order[j]
  }

  /** One turn of a loop that visits the elements of a set in any order. */
  lemma OneLess<T>(all: set<T>, todo: set<T>, x: T)
    requires x in todo && todo <= all
    ensures all - todo + {x} == all - (todo - {x}) && |todo - {x}| < |todo| && x !in all - todo
  {}

  lemma OneDone<T>(done: set<T>, todo: set<T>, x: T)
    requires x in todo && done !! todo
    ensures done + {x} + (todo - {x}) == done + todo && done + {x} !! todo - {x} && |todo - {x}| < |todo|
  {}

  lemma EnumerateMore<T>(order: seq<T>, s: set<T>, x: T)
    requires Enumerates(order, s) && x !in s
    ensures Enumerates(order + [x], s + {x})
  {
    forall i | 0 <= i < |order| ensures order[i] != x { assert order[i] in Elements(order); }
  }

  ghost function InRoom<C>(m: map<RoomId, set<C>>, r: RoomId): set<C> {
    if r in m then m[r] else {}
  }

  ghost function UserOf<C>(s: HubState<C>, c: C): UserId {
    if c in s.user then s.user[c] else NIL_USER
  }

  ghost function Joined<C>(s: HubState<C>, c: C): set<RoomId> {
    if c in s.joined then s.joined[c] else {}
  }

  ghost function Users<C>(s: HubState<C>, order: seq<C>): (us: seq<UserId>)
    ensures |us| == |order|
  {
    seq(|order|, i requires 0 <= i < |order| => UserOf(s, order[i]))
  }

  /** The users of an order are the users of the clients it enumerates, one for each client. */
  lemma EnumeratedUsers<C>(s: HubState<C>, order: seq<C>, cs: set<C>)
    requires Enumerates(order, cs)
    ensures (set u | u in Users(s, order)) == (set q | q in cs :: UserOf(s, q))
    ensures |Users(s, order)| == |cs|
  {
    var us := Users(s, order);
    forall u ensures u in us <==> u in set q | q in cs :: UserOf(s, q) {
      if u in us {
        var i :| 0 <= i < |us| && us[i] == u;
        assert order[i] in Elements(order);
      }
      if q :| q in cs && UserOf(s, q) == u {
        assert q in Elements(order);
        var i :| 0 <= i < |order| && order[i] == q;
        assert us[i] == u;
      }
    }
    EnumerationSize(order, cs);
  }

  lemma {:induction false} EnumerationSize<T>(order: seq<T>, s: set<T>)
    requires Enumerates(order, s)
    ensures |order| == |s|
    decreases |order|
  {
    if order != [] {
      var n := |order| - 1;
      assert order == order[..n] + [order[n]];
      assert Elements(order[..n]) == s - {order[n]};
      EnumerationSize(order[..n], s - {order[n]});
    }
  }

  /** One non-blocking send of `m` to each target. */
  ghost function OfferAll<C>(box: map<C, Mailbox>, targets: set<C>, m: Msg): map<C, Mailbox> {
    map c | c in box :: if c in targets then Offer(box[c], m) else box[c]
  }

  lemma OfferAllMore<C>(box: map<C, Mailbox>, targets: set<C>, c: C, m: Msg)
    requires c in box && c !in targets
    ensures var done := OfferAll(box, targets, m);
            && c in done && done[c] == box[c]
            && OfferAll(box, targets + {c}, m) == done[c := Offer(box[c], m)]
  {}

  ghost function Send<C>(s: HubState<C>, targets: set<C>, m: Msg): HubState<C> {
    s.(box := OfferAll(s.box, targets, m))
  }

  ghost function RegisterStep<C>(s: HubState<C>, c: C): HubState<C> {
    s.(clients := s.clients + {c})
  }

  ghost function WithJoined<C>(s: HubState<C>, c: C, rs: set<RoomId>): HubState<C> {
    s.(joined := s.joined[c := rs])
  }

  /** Why a join is refused, if it is. */
  ghost function Refusal(lookup: Lookup, user: UserId): Option<ErrorCode> {
    match lookup
    case Missing => Some(RoomNotFound)
    case Found(Public, _, _) => None
    case Found(Voice, _, _) => None
    case Found(DM, _, member) => if member then None else Some(Forbidden)
    case Found(Private, owner, member) => if owner == user || member then None else Some(Forbidden)
  }

  /** The join is neither a repetition nor refused. */
  ghost predicate Admits<C>(s: HubState<C>, c: C, r: RoomId, lookup: Lookup) {
    r !in Joined(s, c) && Refusal(lookup, UserOf(s, c)).None?
  }

  /** c enters the room; a room opened by this spawns its subscription. */
  ghost function Admit<C>(s: HubState<C>, c: C, r: RoomId): HubState<C> {
    WithJoined(s, c, Joined(s, c) + {r}).(
      rooms := s.rooms[r := InRoom(s.rooms, r) + {c}],
      calls := if r in s.rooms then s.calls else s.calls + [Subscribe(r)])
  }

  ghost function JoinStep<C>(s: HubState<C>, c: C, r: RoomId, lookup: Lookup, order: seq<C>): HubState<C> {
    if r in Joined(s, c) then s
    else
      match Refusal(lookup, UserOf(s, c))
      case Some(code) => Send(s, {c}, Failure(code))
      case None =>
        Send(Admit(s, c, r), {c}, RoomJoined(r, Users(s, order)))
  }

  ghost function LeaveStep<C>(s: HubState<C>, c: C, r: RoomId): HubState<C> {
    var s1 := WithJoined(s, c, Joined(s, c) - {r});
    if r !in s.rooms then s1
    else if s.rooms[r] - {c} == {} then s1.(rooms := s.rooms - {r}, calls := s.calls + [Unsubscribe(r)])
    else s1.(rooms := s.rooms[r := s.rooms[r] - {c}])
  }

  lemma LeaveParts<C>(s: HubState<C>, c: C, r: RoomId)
    ensures LeaveStep(s, c, r)
         == s.(joined := s.joined[c := Joined(s, c) - {r}],
               rooms := if r !in s.rooms then s.rooms
                        else if s.rooms[r] - {c} == {} then s.rooms - {r}
                        else s.rooms[r := s.rooms[r] - {c}],
               calls := if r in s.rooms && s.rooms[r] - {c} == {} then s.calls + [Unsubscribe(r)] else s.calls)
  {}

  ghost function VoiceJoinStep<C>(s: HubState<C>, c: C, r: RoomId, order: seq<C>): HubState<C> {
    var s1 := s.(voice := s.voice[r := InRoom(s.voice, r) + {c}]);
    var s2 := Send(s1, {c}, VoiceParticipants(r, Users(s, order)));
    Send(s2, s1.voice[r] - {c}, VoiceJoined(r, UserOf(s, c)))
  }

  ghost function VoiceLeaveStep<C>(s: HubState<C>, c: C, r: RoomId): HubState<C> {
    var left := InRoom(s.voice, r) - {c};
    var s1 := if r !in s.voice then s
              else if left == {} then s.(voice := s.voice - {r})
              else s.(voice := s.voice[r := left]);
    Send(s1, left, VoiceLeft(r, UserOf(s, c)))
  }

  /** The clients sharing a room with c, found through the hub's own index. */
  ghost function RoomPeers<C>(s: HubState<C>, c: C): set<C> {
    set r, d | r in Joined(s, c) && d in InRoom(s.rooms, r) && d != c :: d
  }

  ghost function LeaveAll<C>(s: HubState<C>, c: C, order: seq<RoomId>): HubState<C> {
    if order == [] then s else LeaveStep(LeaveAll(s, c, order[..|order| - 1]), c, order[|order| - 1])
  }

  ghost function VoiceLeaveIfIn<C>(s: HubState<C>, c: C, r: RoomId): HubState<C> {
    if c in InRoom(s.voice, r) then VoiceLeaveStep(s, c, r) else s
  }

  ghost function VoiceLeaveAll<C>(s: HubState<C>, c: C, order: seq<RoomId>): HubState<C> {
    if order == [] then s else VoiceLeaveIfIn(VoiceLeaveAll(s, c, order[..|order| - 1]), c, order[|order| - 1])
  }

  lemma LeaveOneMore<C>(s: HubState<C>, c: C, order: seq<RoomId>, r: RoomId)
    ensures LeaveAll(s, c, order + [r]) == LeaveStep(LeaveAll(s, c, order), c, r)
    ensures VoiceLeaveAll(s, c, order + [r]) == VoiceLeaveIfIn(VoiceLeaveAll(s, c, order), c, r)
  {
    assert (order + [r])[..|order|] == order;
  }

  /** `delete(h.clients, c); close(c.send)` */
  ghost function Disconnect<C>(s: HubState<C>, c: C): HubState<C> {
    s.(clients := s.clients - {c}, box := if c in s.box then s.box[c := Close(s.box[c])] else s.box)
  }

  ghost function UnregisterStep<C>(s: HubState<C>, c: C, rooms: seq<RoomId>, voice: seq<RoomId>): HubState<C> {
    if c !in s.clients then s
    else Send(VoiceLeaveAll(LeaveAll(Disconnect(s, c), c, rooms), c, voice), RoomPeers(s, c), Offline(UserOf(s, c)))
  }

  ghost function SignalStep<C>(s: HubState<C>, c: C, r: RoomId, target: UserId, pick: Option<C>): HubState<C> {
    if target == NIL_USER || pick.None? then s else Send(s, {pick.value}, VoiceSignal(r, UserOf(s, c)))
  }

  ghost function Step<C>(s: HubState<C>, e: Event<C>): HubState<C> {
    match e.req
    case Register(c) => RegisterStep(s, c)
    case Unregister(c) => UnregisterStep(s, c, e.choice.rooms, e.choice.voice)
    case JoinRoom(c, r, lookup) => JoinStep(s, c, r, lookup, e.choice.peers)
    case LeaveRoom(c, r) => LeaveStep(s, c, r)
    case Chat(c, r, data, saved) =>
      if saved then s.(calls := s.calls + [Publish(r, data)]) else Send(s, {c}, Failure(SendFailed))
    case TypingNote(c, r, present) =>
      if present then Send(s, InRoom(s.rooms, r), Typing(r, UserOf(s, c))) else s
    case VoiceJoin(c, r) => VoiceJoinStep(s, c, r, e.choice.peers)
    case VoiceLeave(c, r) => VoiceLeaveStep(s, c, r)
    case Signal(c, r, target) => SignalStep(s, c, r, target, e.choice.pick)
    case Broadcast(r, data) => Send(s, InRoom(s.rooms, r), Payload(r, data))
    case ReadError(c) => Send(s, {c}, Failure(InvalidMessage))
    case WriterTakes(c) => s.(box := if c in s.box then s.box[c := Take(s.box[c])] else s.box)
  }

  ghost predicate IsFirstMatch<C>(s: HubState<C>, r: RoomId, target: UserId, pick: Option<C>) {
    match pick
    case Some(p) => p in InRoom(s.voice, r) && UserOf(s, p) == target
    case None => forall p <- InRoom(s.voice, r) :: UserOf(s, p) != target
  }

  /** The event speaks of a known connection and its orders enumerate the maps Go would iterate. */
  ghost predicate Enabled<C>(s: HubState<C>, e: Event<C>) {
    && (e.req.Broadcast? || e.req.c in s.user)
    && match e.req
       case Unregister(c) =>
         c in s.clients ==> Enumerates(e.choice.rooms, Joined(s, c)) && Enumerates(e.choice.voice, s.voice.Keys)
       case JoinRoom(c, r, lookup) => Admits(s, c, r, lookup) ==> Enumerates(e.choice.peers, InRoom(s.rooms, r) + {c})
       case VoiceJoin(c, r) => Enumerates(e.choice.peers, InRoom(s.voice, r) - {c})
       case Signal(_, r, target) => IsFirstMatch(s, r, target, e.choice.pick)
       case _ => true
  }

  ghost function Exec<C>(s: HubState<C>, es: seq<Event<C>>): HubState<C> {
    if es == [] then s else Step(Exec(s, es[..|es| - 1]), es[|es| - 1])
  }

  /** A run: each event is enabled where it happens. No order between clients' events is assumed. */
  ghost predicate IsRun<C>(s: HubState<C>, es: seq<Event<C>>) {
    es == [] || (IsRun(s, es[..|es| - 1]) && Enabled(Exec(s, es[..|es| - 1]), es[|es| - 1]))
  }

  lemma RunSnoc<C>(s: HubState<C>, es: seq<Event<C>>, e: Event<C>)
    ensures Exec(s, es + [e]) == Step(Exec(s, es), e)
    ensures IsRun(s, es + [e]) <==> IsRun(s, es) && Enabled(Exec(s, es), e)
    ensures Requests(es + [e]) == Requests(es) + [e.req]
  {
    assert (es + [e])[..|es|] == es;
  }

  /** What the hub received in a run. */
  ghost function Requests<C>(es: seq<Event<C>>): seq<Request<C>> {
    if es == [] then [] else Requests(es[..|es| - 1]) + [es[|es| - 1].req]
  }

  lemma {:induction false} RunPrefix<C>(s: HubState<C>, es: seq<Event<C>>, k: nat)
    requires IsRun(s, es) && k <= |es|
    ensures IsRun(s, es[..k])
    decreases |es|
  {
    if k < |es| {
      RunPrefix(s, es[..|es| - 1], k);
      assert es[..|es| - 1][..k] == es[..k];
    } else {
      assert es[..k] == es;
    }
  }

  /** `NewHub`, with the connections that will exist and their empty channels. */
  ghost function Fresh<C>(user: map<C, UserId>): HubState<C> {
    HubState(user, {}, map[], map[], map c | c in user :: {}, map c | c in user :: EMPTY_MAILBOX, [])
  }
}
