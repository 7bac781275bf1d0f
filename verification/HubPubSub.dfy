/** One server: the hub, the pub/sub adapter, the goroutines the hub starts and the messages on their way from Redis to
    the hub. The hub makes its broadcaster calls one after the other and takes the next event only after the last of
    them; everything else interleaves freely. */
module HubPubSub {
  import opened Domain
  import opened Mailboxes
  import opened HubModel
  import opened HubIndex
  import opened HubAnySchedule
  import opened HubInOrder
  import opened PubSubModel

  /** A published message received by one subscription. */
  datatype Copy = Copy(room: RoomId, sub: SubId, data: nat)

  /** `due` are the calls the hub still has to make for the event it is handling; `flight` holds, for each
      subscription, the copies it has received and the hub has not, oldest first. */
  datatype System<C> = System(hub: HubState<C>, ps: PubSub, due: seq<Call>, flight: map<SubId, seq<Copy>>)

  datatype Move<C> =
    | HandleEvent(e: Event<C>)                 // the hub handles a request
    | MakeCall                                 // ... and makes the next call it owes
    | CloseSub(id: SubId)                      // ... and closes the subscription an Unsubscribe deleted
    | Stored(id: SubId)                        // a goroutine stores its subscription
    | PublishOutside(room: RoomId, data: nat)  // an HTTP handler or another server publishes
    | Forward(id: SubId)                       // the hub receives the oldest copy of a subscription
    | Cut(id: SubId)                           // a closed subscription loses its newest copy

  ghost function Starting<C>(user: map<C, UserId>): System<C> {
    System(Fresh(user), EMPTY_PUBSUB, [], map[])
  }

  ghost function Queue<C>(y: System<C>, id: SubId): seq<Copy> {
    if id in y.flight then y.flight[id] else []
  }

  /** What a publication of (r, data) hands to subscription id. */
  ghost function Handed(ps: PubSub, r: RoomId, data: nat, id: SubId): seq<Copy> {
    if id in Receivers(ps, r) then [Copy(r, id, data)] else []
  }

  /** Redis hands a message to every subscription of its room that is not closed. */
  ghost function Published<C>(y: System<C>, r: RoomId, data: nat): map<SubId, seq<Copy>> {
    map id | id in y.flight.Keys + Receivers(y.ps, r) :: Queue(y, id) + Handed(y.ps, r, data, id)
  }

  /** The hub is inside Unsubscribe, between the deletion and the close. */
  ghost predicate Closes(ps: PubSub) {
    exists id :: 0 <= id < |ps.handles| && ps.handles[id].phase == Closing
  }

  ghost function PsStepOf(call: Call): seq<PsStep> {
    match call
    case Subscribe(r) => [Spawn(r)]
    case Unsubscribe(r) => [Drop(r)]
    case Publish(_, _) => []
  }

  /** The broadcast event a copy becomes. */
  ghost function Delivery<C>(copy: Copy): Event<C> {
    Event(Broadcast(copy.room, copy.data), Choice([], [], [], None))
  }

  ghost function NewCalls<C>(s: HubState<C>, e: Event<C>): seq<Call> {
    var calls := Step(s, e).calls;
    if |s.calls| <= |calls| then calls[|s.calls|..] else []
  }

  ghost function Next<C>(y: System<C>, m: Move<C>): System<C> {
    match m
    case HandleEvent(e) => y.(hub := Step(y.hub, e), due := NewCalls(y.hub, e))
    case MakeCall =>
      if y.due == [] then y
      else
        var call := y.due[0];
        y.(due := y.due[1..],
           ps := if call.Publish? then y.ps else PsNext(y.ps, PsStepOf(call)[0]),
           flight := if call.Publish? then Published(y, call.room, call.data) else y.flight)
    case CloseSub(id) => y.(ps := CloseStep(y.ps, id))
    case Stored(id) => y.(ps := StoreStep(y.ps, id))
    case PublishOutside(r, data) => y.(flight := Published(y, r, data))
    case Forward(id) =>
      if Queue(y, id) == [] then y
      else y.(hub := Step(y.hub, Delivery(Queue(y, id)[0])), flight := y.flight[id := Queue(y, id)[1..]])
    case Cut(id) =>
      if Queue(y, id) == [] then y else y.(flight := y.flight[id := Queue(y, id)[..|Queue(y, id)| - 1]])
  }

  ghost predicate Possible<C>(y: System<C>, m: Move<C>) {
    match m
    case HandleEvent(e) => y.due == [] && !Closes(y.ps) && !e.req.Broadcast? && Enabled(y.hub, e)
    case MakeCall => y.due != [] && !Closes(y.ps)
    case CloseSub(id) => PsEnabled(y.ps, Close(id))
    case Stored(id) => PsEnabled(y.ps, Store(id))
    case PublishOutside(_, _) => true
    case Forward(id) => y.due == [] && !Closes(y.ps) && Queue(y, id) != []
    case Cut(id) => IsClosed(y.ps, id) && Queue(y, id) != []
  }

  ghost predicate IsClosed(ps: PubSub, id: SubId) {
    id < |ps.handles| && ps.handles[id].phase == Closed
  }

  ghost predicate Follows<C>(ys: seq<System<C>>, ms: seq<Move<C>>, i: nat)
    requires i < |ms| < |ys|
  {
    Possible(ys[i], ms[i]) && ys[i + 1] == Next(ys[i], ms[i])
  }

  /** A run: the states ys it goes through and the moves ms between them. */
  ghost predicate IsSystemRun<C>(user: map<C, UserId>, ys: seq<System<C>>, ms: seq<Move<C>>) {
    && |ys| == |ms| + 1 && ys[0] == Starting(user)
    && forall i: nat | i < |ms| :: Follows(ys, ms, i)
  }

  // ---------- The hub's run and the adapter's run inside the system's ----------

  ghost function HubPart<C>(y: System<C>, m: Move<C>): seq<Event<C>> {
    match m
    case HandleEvent(e) => [e]
    case Forward(id) => if Queue(y, id) == [] then [] else [Delivery(Queue(y, id)[0])]
    case _ => []
  }

  /** The hub's events among the first n moves. */
  ghost function HubEvents<C>(ys: seq<System<C>>, ms: seq<Move<C>>, n: nat): seq<Event<C>>
    requires n <= |ms| <= |ys|
  {
    if n == 0 then [] else HubEvents(ys, ms, n - 1) + HubPart(ys[n - 1], ms[n - 1])
  }

  ghost function PsPart<C>(y: System<C>, m: Move<C>): seq<PsStep> {
    match m
    case MakeCall => if y.due == [] then [] else PsStepOf(y.due[0])
    case CloseSub(id) => [Close(id)]
    case Stored(id) => [Store(id)]
    case _ => []
  }

  ghost function PsSteps<C>(ys: seq<System<C>>, ms: seq<Move<C>>, n: nat): seq<PsStep>
    requires n <= |ms| <= |ys|
  {
    if n == 0 then [] else PsSteps(ys, ms, n - 1) + PsPart(ys[n - 1], ms[n - 1])
  }

  /** The calls that reach the subscription table. */
  ghost function SubCalls(calls: seq<Call>): seq<Call> {
    if calls == [] then []
    else SubCalls(calls[..|calls| - 1]) + if calls[|calls| - 1].Publish? then [] else [calls[|calls| - 1]]
  }

  lemma {:induction false} SubCallsAlternate(calls: seq<Call>)
    requires Alternate(calls)
    ensures Alternate(SubCalls(calls)) && Outstanding(SubCalls(calls)) == Outstanding(calls)
    decreases |calls|
  {
    if calls != [] {
      var before, call := calls[..|calls| - 1], calls[|calls| - 1];
      SubCallsAlternate(before);
      if call.Publish? { assert SubCalls(before) + [] == SubCalls(before); }
      else { AppendCall(SubCalls(before), call); }
    }
  }

  lemma {:induction false} SubCallsConcat(a: seq<Call>, b: seq<Call>)
    ensures SubCalls(a + b) == SubCalls(a) + SubCalls(b)
    decreases |b|
  {
    if b == [] {
      assert a + b == a;
    } else {
      SubCallsConcat(a, b[..|b| - 1]);
      assert (a + b)[..|a + b| - 1] == a + b[..|b| - 1];
    }
  }

  lemma SubCallsFirst(calls: seq<Call>)
    requires calls != []
    ensures calls[0].Publish? ==> SubCalls(calls) == SubCalls(calls[1..])
    ensures !calls[0].Publish? ==> SubCalls(calls) == [calls[0]] + SubCalls(calls[1..])
  {
    assert calls == [calls[0]] + calls[1..] && [calls[0]][..0] == [];
    SubCallsConcat([calls[0]], calls[1..]);
  }

  lemma {:induction false} AlternatePrefix(a: seq<Call>, b: seq<Call>)
    requires Alternate(a + b)
    ensures Alternate(a)
    decreases |b|
  {
    if b == [] {
      assert a + b == a;
    } else {
      assert (a + b)[..|a + b| - 1] == a + b[..|b| - 1];
      AlternatePrefix(a, b[..|b| - 1]);
    }
  }

  lemma {:induction false} LeaveAllCalls<C>(s: HubState<C>, c: C, order: seq<RoomId>)
    ensures s.calls <= LeaveAll(s, c, order).calls
    decreases |order|
  {
    if order != [] { LeaveAllCalls(s, c, order[..|order| - 1]); }
  }

  lemma {:induction false} VoiceLeaveAllCalls<C>(s: HubState<C>, c: C, order: seq<RoomId>)
    ensures VoiceLeaveAll(s, c, order).calls == s.calls
    decreases |order|
  {
    if order != [] { VoiceLeaveAllCalls(s, c, order[..|order| - 1]); }
  }

  lemma JoinCalls<C>(s: HubState<C>, c: C, r: RoomId, lookup: Lookup, order: seq<C>)
    ensures s.calls <= JoinStep(s, c, r, lookup, order).calls
  {}

  lemma UnregisterCalls<C>(s: HubState<C>, c: C, rooms: seq<RoomId>, voice: seq<RoomId>)
    ensures s.calls <= UnregisterStep(s, c, rooms, voice).calls
  {
    LeaveAllCalls(Disconnect(s, c), c, rooms);
    VoiceLeaveAllCalls(LeaveAll(Disconnect(s, c), c, rooms), c, voice);
  }

  lemma StepKeepsCalls<C>(s: HubState<C>, e: Event<C>)
    ensures s.calls <= Step(s, e).calls
  {
    if MailOnly(e.req) || e.req.WriterTakes? { OnlyQueues(s, e); }
    else if e.req.JoinRoom? { JoinCalls(s, e.req.c, e.req.room, e.req.lookup, e.choice.peers); }
    else if e.req.VoiceLeave? { VoiceLeaveFrame(s, e.req.c, e.req.room); }
    else if e.req.VoiceJoin? { VoiceJoinFrame(s, e.req.c, e.req.room, e.choice.peers); }
    else if e.req.Unregister? { UnregisterCalls(s, e.req.c, e.choice.rooms, e.choice.voice); }
  }

  /** A step only adds calls. */
  lemma CallsGrow<C>(s: HubState<C>, e: Event<C>)
    ensures Step(s, e).calls == s.calls + NewCalls(s, e)
  {
    var calls := Step(s, e).calls;
    assert s.calls <= calls by { StepKeepsCalls(s, e); }
  }

  lemma OneMoreMove<C>(user: map<C, UserId>, ys: seq<System<C>>, ms: seq<Move<C>>, n: nat)
    requires IsSystemRun(user, ys, ms) && 0 < n <= |ms|
    ensures Possible(ys[n - 1], ms[n - 1]) && ys[n] == Next(ys[n - 1], ms[n - 1])
    ensures HubEvents(ys, ms, n) == HubEvents(ys, ms, n - 1) + HubPart(ys[n - 1], ms[n - 1])
    ensures PsSteps(ys, ms, n) == PsSteps(ys, ms, n - 1) + PsPart(ys[n - 1], ms[n - 1])
  {
    assert Follows(ys, ms, n - 1);
  }

  lemma HubAfter<C>(y: System<C>, m: Move<C>)
    requires Possible(y, m)
    ensures |HubPart(y, m)| <= 1
    ensures Next(y, m).hub == if HubPart(y, m) == [] then y.hub else Step(y.hub, HubPart(y, m)[0])
    ensures HubPart(y, m) != [] ==> Enabled(y.hub, HubPart(y, m)[0])
  {}

  lemma HubMove<C>(user: map<C, UserId>, ys: seq<System<C>>, ms: seq<Move<C>>, n: nat) returns (part: seq<Event<C>>)
    requires IsSystemRun(user, ys, ms) && 0 < n <= |ms|
    ensures |part| <= 1 && HubEvents(ys, ms, n) == HubEvents(ys, ms, n - 1) + part
    ensures ys[n].hub == if part == [] then ys[n - 1].hub else Step(ys[n - 1].hub, part[0])
    ensures part != [] ==> Enabled(ys[n - 1].hub, part[0])
  {
    part := HubPart(ys[n - 1], ms[n - 1]);
    OneMoreMove(user, ys, ms, n);
    HubAfter(ys[n - 1], ms[n - 1]);
  }

  lemma RunMore<C>(s: HubState<C>, es: seq<Event<C>>, part: seq<Event<C>>, es': seq<Event<C>>, h': HubState<C>)
    requires IsRun(s, es) && |part| <= 1 && (part != [] ==> Enabled(Exec(s, es), part[0])) && es' == es + part
    requires h' == if part == [] then Exec(s, es) else Step(Exec(s, es), part[0])
    ensures IsRun(s, es') && Exec(s, es') == h'
  {
    if part == [] { assert es' == es; } else { assert part == [part[0]]; RunSnoc(s, es, part[0]); }
  }

  /** After each of the first n moves: the hub's events so far are a run that leads to its state. */
  ghost predicate HubMatched<C>(user: map<C, UserId>, ys: seq<System<C>>, ms: seq<Move<C>>, n: nat)
    requires n <= |ms| < |ys|
  {
    && IsRun(Fresh(user), HubEvents(ys, ms, n)) && Exec(Fresh(user), HubEvents(ys, ms, n)) == ys[n].hub
    && (n == 0 || HubMatched(user, ys, ms, n - 1))
  }

  lemma HubOneMore<C>(user: map<C, UserId>, ys: seq<System<C>>, ms: seq<Move<C>>, n: nat)
    requires IsSystemRun(user, ys, ms) && 0 < n <= |ms| && HubMatched(user, ys, ms, n - 1)
    ensures HubMatched(user, ys, ms, n)
  {
    var part := HubMove(user, ys, ms, n);
    RunMore(Fresh(user), HubEvents(ys, ms, n - 1), part, HubEvents(ys, ms, n), ys[n].hub);
  }

  lemma PsAfter<C>(y: System<C>, m: Move<C>)
    requires Possible(y, m)
    ensures |PsPart(y, m)| <= 1
    ensures Next(y, m).ps == if PsPart(y, m) == [] then y.ps else PsNext(y.ps, PsPart(y, m)[0])
    ensures PsPart(y, m) != [] ==> PsEnabled(y.ps, PsPart(y, m)[0])
  {}

  lemma PsMove<C>(user: map<C, UserId>, ys: seq<System<C>>, ms: seq<Move<C>>, n: nat) returns (part: seq<PsStep>)
    requires IsSystemRun(user, ys, ms) && 0 < n <= |ms|
    ensures |part| <= 1 && PsSteps(ys, ms, n) == PsSteps(ys, ms, n - 1) + part
    ensures ys[n].ps == if part == [] then ys[n - 1].ps else PsNext(ys[n - 1].ps, part[0])
    ensures part != [] ==> PsEnabled(ys[n - 1].ps, part[0])
  {
    part := PsPart(ys[n - 1], ms[n - 1]);
    OneMoreMove(user, ys, ms, n);
    PsAfter(ys[n - 1], ms[n - 1]);
  }

  lemma PsRunMore(run: seq<PsStep>, part: seq<PsStep>, run': seq<PsStep>, ps': PubSub)
    requires IsPsRun(run) && |part| <= 1 && (part != [] ==> PsEnabled(PsExec(run), part[0])) && run' == run + part
    requires ps' == if part == [] then PsExec(run) else PsNext(PsExec(run), part[0])
    ensures IsPsRun(run') && PsExec(run') == ps'
  {
    if part == [] { assert run' == run; } else { assert part == [part[0]]; PsRunSnoc(run, part[0]); }
  }

  /** After each of the first n moves: the adapter's steps so far are a run that leads to its state. */
  ghost predicate PsMatched<C>(ys: seq<System<C>>, ms: seq<Move<C>>, n: nat)
    requires n <= |ms| < |ys|
  {
    && IsPsRun(PsSteps(ys, ms, n)) && PsExec(PsSteps(ys, ms, n)) == ys[n].ps
    && (n == 0 || PsMatched(ys, ms, n - 1))
  }

  lemma PsOneMore<C>(user: map<C, UserId>, ys: seq<System<C>>, ms: seq<Move<C>>, n: nat)
    requires IsSystemRun(user, ys, ms) && 0 < n <= |ms| && PsMatched(ys, ms, n - 1)
    ensures PsMatched(ys, ms, n)
  {
    var part := PsMove(user, ys, ms, n);
    PsRunMore(PsSteps(ys, ms, n - 1), part, PsSteps(ys, ms, n), ys[n].ps);
  }

  /** The adapter has seen the hub's calls, except for those still due. */
  ghost predicate CallsAgree<C>(run: seq<PsStep>, y: System<C>) {
    HubCalls(run) + SubCalls(y.due) == SubCalls(y.hub.calls)
  }

  lemma EventCalls<C>(run: seq<PsStep>, y: System<C>, e: Event<C>, y': System<C>)
    requires CallsAgree(run, y) && y.due == [] && y'.hub == Step(y.hub, e) && y'.due == NewCalls(y.hub, e)
    ensures CallsAgree(run, y')
  {
    CallsGrow(y.hub, e);
    SubCallsConcat(y.hub.calls, NewCalls(y.hub, e));
    assert HubCalls(run) + [] == HubCalls(run);
  }

  lemma BroadcastCalls<C>(s: HubState<C>, copy: Copy)
    ensures NewCalls(s, Delivery(copy)) == []
  {}

  lemma Associative<T>(a: seq<T>, b: seq<T>, c: seq<T>)
    ensures a + b + c == a + (b + c)
  {}

  lemma CallMade(run: seq<PsStep>, due: seq<Call>)
    requires due != []
    ensures HubCalls(run + PsStepOf(due[0])) + SubCalls(due[1..]) == HubCalls(run) + SubCalls(due)
  {
    SubCallsFirst(due);
    if due[0].Publish? {
      assert run + [] == run;
    } else {
      var t := PsStepOf(due[0])[0];
      PsRunSnoc(run, t);
      assert CallOf(t) == [due[0]] && PsStepOf(due[0]) == [t];
      Associative(HubCalls(run), [due[0]], SubCalls(due[1..]));
    }
  }

  lemma SilentStep(run: seq<PsStep>, t: PsStep)
    requires t.Store? || t.Close?
    ensures HubCalls(run + [t]) == HubCalls(run)
  {
    PsRunSnoc(run, t);
    assert HubCalls(run) + [] == HubCalls(run);
  }

  lemma MoveCalls<C>(run: seq<PsStep>, y: System<C>, m: Move<C>)
    requires CallsAgree(run, y) && Possible(y, m)
    ensures CallsAgree(run + PsPart(y, m), Next(y, m))
  {
    assert run + [] == run;
    match m
    case HandleEvent(e) => EventCalls(run, y, e, Next(y, m));
    case MakeCall => CallMade(run, y.due);
    case CloseSub(id) => SilentStep(run, Close(id));
    case Stored(id) => SilentStep(run, Store(id));
    case Forward(id) =>
      BroadcastCalls(y.hub, Queue(y, id)[0]);
      EventCalls(run, y, Delivery(Queue(y, id)[0]), Next(y, m));
    case _ =>
  }

  /** After each of the first n moves this is so. */
  ghost predicate CallsAgreed<C>(ys: seq<System<C>>, ms: seq<Move<C>>, n: nat)
    requires n <= |ms| < |ys|
  {
    CallsAgree(PsSteps(ys, ms, n), ys[n]) && (n == 0 || CallsAgreed(ys, ms, n - 1))
  }

  lemma CallsOneMore<C>(user: map<C, UserId>, ys: seq<System<C>>, ms: seq<Move<C>>, n: nat)
    requires IsSystemRun(user, ys, ms) && 0 < n <= |ms| && CallsAgreed(ys, ms, n - 1)
    ensures CallsAgreed(ys, ms, n)
  {
    OneMoreMove(user, ys, ms, n);
    MoveCalls(PsSteps(ys, ms, n - 1), ys[n - 1], ms[n - 1]);
  }

  lemma NothingMatches<C>(user: map<C, UserId>, ys: seq<System<C>>, ms: seq<Move<C>>)
    requires IsSystemRun(user, ys, ms)
    ensures HubMatched(user, ys, ms, 0) && PsMatched(ys, ms, 0) && CallsAgreed(ys, ms, 0)
  {}

  lemma {:induction false} HubMatches<C>(user: map<C, UserId>, ys: seq<System<C>>, ms: seq<Move<C>>, n: nat)
    requires IsSystemRun(user, ys, ms) && n <= |ms|
    ensures HubMatched(user, ys, ms, n)
  {
    if n == 0 {
      NothingMatches(user, ys, ms);
    } else {
      HubMatches(user, ys, ms, n - 1);
      HubOneMore(user, ys, ms, n);
    }
  }

  lemma {:induction false} PsMatches<C>(user: map<C, UserId>, ys: seq<System<C>>, ms: seq<Move<C>>, n: nat)
    requires IsSystemRun(user, ys, ms) && n <= |ms|
    ensures PsMatched(ys, ms, n)
  {
    if n == 0 {
      NothingMatches(user, ys, ms);
    } else {
      PsMatches(user, ys, ms, n - 1);
      PsOneMore(user, ys, ms, n);
    }
  }

  lemma {:induction false} CallsMatch<C>(user: map<C, UserId>, ys: seq<System<C>>, ms: seq<Move<C>>, n: nat)
    requires IsSystemRun(user, ys, ms) && n <= |ms|
    ensures CallsAgreed(ys, ms, n)
  {
    if n == 0 {
      NothingMatches(user, ys, ms);
    } else {
      CallsMatch(user, ys, ms, n - 1);
      CallsOneMore(user, ys, ms, n);
    }
  }

  /** The hub's events are a run of the hub, the adapter's steps a run of the adapter, and the adapter has seen the
      hub's calls except for those still due. */
  lemma SystemMatches<C>(user: map<C, UserId>, ys: seq<System<C>>, ms: seq<Move<C>>, n: nat)
    requires IsSystemRun(user, ys, ms) && n <= |ms|
    ensures IsRun(Fresh(user), HubEvents(ys, ms, n)) && Exec(Fresh(user), HubEvents(ys, ms, n)) == ys[n].hub
    ensures IsPsRun(PsSteps(ys, ms, n)) && PsExec(PsSteps(ys, ms, n)) == ys[n].ps
    ensures HubCalls(PsSteps(ys, ms, n)) + SubCalls(ys[n].due) == SubCalls(ys[n].hub.calls)
  {
    HubMatches(user, ys, ms, n);
    PsMatches(user, ys, ms, n);
    CallsMatch(user, ys, ms, n);
  }

  /** The adapter's calls alternate for each room, and between two events of the hub the rooms it has a subscription
      outstanding for are exactly the hub's rooms. */
  lemma AdapterFollowsHub<C>(user: map<C, UserId>, ys: seq<System<C>>, ms: seq<Move<C>>, n: nat)
    requires IsSystemRun(user, ys, ms) && n <= |ms|
    ensures Alternate(HubCalls(PsSteps(ys, ms, n)))
    ensures SubCalls(ys[n].due) == [] ==> Open(PsSteps(ys, ms, n)) == ys[n].hub.rooms.Keys
  {
    SystemMatches(user, ys, ms, n);
    RunKeepsIndex(user, HubEvents(ys, ms, n));
    SubCallsAlternate(ys[n].hub.calls);
    AlternatePrefix(HubCalls(PsSteps(ys, ms, n)), SubCalls(ys[n].due));
    if SubCalls(ys[n].due) == [] { assert HubCalls(PsSteps(ys, ms, n)) + [] == HubCalls(PsSteps(ys, ms, n)); }
  }

  // ---------- No open room goes deaf ----------

  /** Whatever the interleaving: while the hub has clients in a room, the subscription started by the room's latest
      opening is still pending or live. Older goroutines may store late and displace it in the table, but nothing has
      closed it. */
  lemma OpenRoomsHear<C>(user: map<C, UserId>, ys: seq<System<C>>, ms: seq<Move<C>>, n: nat, r: RoomId)
    requires IsSystemRun(user, ys, ms) && n <= |ms| && ys[n].due == [] && InRoom(ys[n].hub.rooms, r) != {}
    ensures r in ys[n].ps.latest && IsAlive(ys[n].ps, r, ys[n].ps.latest[r])
  {
    AdapterFollowsHub(user, ys, ms, n);
    SystemMatches(user, ys, ms, n);
    RunSound(PsSteps(ys, ms, n));
  }

  /** If no Unsubscribe for r came before its store and no store is outstanding, the table has an entry for r exactly
      when the hub has clients in r, and then r has one live subscription. */
  lemma TableFollowsHub<C>(user: map<C, UserId>, ys: seq<System<C>>, ms: seq<Move<C>>, n: nat, r: RoomId)
    requires IsSystemRun(user, ys, ms) && n <= |ms| && ys[n].due == []
    requires ys[n].ps.missed[r] == 0 && NoPending(ys[n].ps, r)
    ensures r in ys[n].ps.subs <==> InRoom(ys[n].hub.rooms, r) != {}
    ensures LiveSubs(ys[n].ps, r) == if r in ys[n].ps.subs then {ys[n].ps.subs[r]} else {}
  {
    AdapterFollowsHub(user, ys, ms, n);
    SystemMatches(user, ys, ms, n);
    TableIsOpenRooms(PsSteps(ys, ms, n), r);
    RunKeepsIndex(user, HubEvents(ys, ms, n));
  }

  /** Each subscription is stored before the hub's next subscribe or unsubscribe call for its room. */
  ghost predicate Prompt<C>(ys: seq<System<C>>, ms: seq<Move<C>>) {
    forall i | 0 <= i < |ms| && i < |ys| && ms[i].MakeCall? && ys[i].due != [] && !ys[i].due[0].Publish? ::
      NoPending(ys[i].ps, ys[i].due[0].room)
  }

  /** Then no Unsubscribe comes before its subscription was stored. */
  lemma {:induction false} PromptMissesNothing<C>(user: map<C, UserId>, ys: seq<System<C>>, ms: seq<Move<C>>, n: nat)
    requires IsSystemRun(user, ys, ms) && n <= |ms| && Prompt(ys, ms)
    ensures ys[n].ps.missed == multiset{}
  {
    if n > 0 {
      PromptMissesNothing(user, ys, ms, n - 1);
      var y, m := ys[n - 1], ms[n - 1];
      assert Follows(ys, ms, n - 1);
      if m.MakeCall? && y.due[0].Unsubscribe? {
        HitsItsEntry(user, ys, ms, n - 1, y.due[0].room);
      }
    }
  }

  lemma HitsItsEntry<C>(user: map<C, UserId>, ys: seq<System<C>>, ms: seq<Move<C>>, n: nat, r: RoomId)
    requires IsSystemRun(user, ys, ms) && n < |ms| && ms[n].MakeCall?
    requires ys[n].due != [] && ys[n].due[0] == Unsubscribe(r)
    requires ys[n].ps.missed == multiset{} && NoPending(ys[n].ps, r)
    ensures r in ys[n].ps.subs
  {
    var run := PsSteps(ys, ms, n);
    assert Follows(ys, ms, n);
    AdapterFollowsHub(user, ys, ms, n + 1);
    assert PsSteps(ys, ms, n + 1) == run + [Drop(r)];
    OpenAfter(run, Drop(r));
    SystemMatches(user, ys, ms, n);
    TableIsOpenRooms(run, r);
  }

  // ---------- Every copy is accounted for, in order ----------

  ghost predicate Publishes<C>(y: System<C>, m: Move<C>, r: RoomId, data: nat) {
    m == PublishOutside(r, data) || (m.MakeCall? && y.due != [] && y.due[0] == Publish(r, data))
  }

  /** What a move hands to subscription id. */
  ghost function Given<C>(y: System<C>, m: Move<C>, id: SubId): seq<Copy> {
    if m.PublishOutside? then Handed(y.ps, m.room, m.data, id)
    else if m.MakeCall? && y.due != [] && y.due[0].Publish? then Handed(y.ps, y.due[0].room, y.due[0].data, id)
    else []
  }

  /** What a move takes from subscription id to the hub. */
  ghost function Taken<C>(y: System<C>, m: Move<C>, id: SubId): seq<Copy> {
    if m == Forward(id) && Queue(y, id) != [] then [Queue(y, id)[0]] else []
  }

  /** How often (r, data) was published by the first n moves. */
  ghost function Publications<C>(ys: seq<System<C>>, ms: seq<Move<C>>, n: nat, r: RoomId, data: nat): nat
    requires n <= |ms| <= |ys|
  {
    if n == 0 then 0
    else Publications(ys, ms, n - 1, r, data) + if Publishes(ys[n - 1], ms[n - 1], r, data) then 1 else 0
  }

  /** The copies subscription id has received, in order. */
  ghost function Received<C>(ys: seq<System<C>>, ms: seq<Move<C>>, n: nat, id: SubId): seq<Copy>
    requires n <= |ms| <= |ys|
  {
    if n == 0 then [] else Received(ys, ms, n - 1, id) + Given(ys[n - 1], ms[n - 1], id)
  }

  /** The copies subscription id has passed on to the hub, in order. */
  ghost function Forwarded<C>(ys: seq<System<C>>, ms: seq<Move<C>>, n: nat, id: SubId): seq<Copy>
    requires n <= |ms| <= |ys|
  {
    if n == 0 then [] else Forwarded(ys, ms, n - 1, id) + Taken(ys[n - 1], ms[n - 1], id)
  }

  /** What a move does to the queue of subscription id. */
  lemma QueueAfter<C>(y: System<C>, m: Move<C>, id: SubId)
    requires Possible(y, m)
    ensures m != Cut(id) ==> Taken(y, m, id) + Queue(Next(y, m), id) == Queue(y, id) + Given(y, m, id)
    ensures m == Cut(id) ==> Taken(y, m, id) + Queue(Next(y, m), id) < Queue(y, id) && Given(y, m, id) == []
  {
    if m.PublishOutside? { PublishedQueue(y, m.room, m.data, id); }
    else if m.MakeCall? && y.due[0].Publish? { PublishedQueue(y, y.due[0].room, y.due[0].data, id); }
  }

  lemma PublishedQueue<C>(y: System<C>, r: RoomId, data: nat, id: SubId)
    ensures var flight := Published(y, r, data);
            (if id in flight then flight[id] else []) == Queue(y, id) + Handed(y.ps, r, data, id)
  {}

  lemma ClosedStays<C>(y: System<C>, m: Move<C>, id: SubId)
    requires Possible(y, m) && IsClosed(y.ps, id) && TableLive(y.ps)
    ensures IsClosed(Next(y, m).ps, id) && Given(y, m, id) == []
  {}

  lemma TableStaysLive<C>(user: map<C, UserId>, ys: seq<System<C>>, ms: seq<Move<C>>, n: nat)
    requires IsSystemRun(user, ys, ms) && n <= |ms|
    ensures TableLive(ys[n].ps)
  {
    SystemMatches(user, ys, ms, n);
    AdapterFollowsHub(user, ys, ms, n);
    RunSound(PsSteps(ys, ms, n));
  }

  /** What a subscription has passed on, followed by what it still has, is what it received, in the order it received
      it; only a closed subscription may have lost the end of it. */
  ghost predicate InSequence<C>(ys: seq<System<C>>, ms: seq<Move<C>>, n: nat, id: SubId)
    requires n <= |ms| < |ys|
  {
    Through(Received(ys, ms, n, id), Forwarded(ys, ms, n, id), ys[n], id)
  }

  ghost predicate Through<C>(received: seq<Copy>, forwarded: seq<Copy>, y: System<C>, id: SubId) {
    && forwarded + Queue(y, id) <= received
    && (IsClosed(y.ps, id) || forwarded + Queue(y, id) == received)
  }

  /** The step of the invariant, on the sequences alone. */
  lemma SequenceStep(received: seq<Copy>, given: seq<Copy>, forwarded: seq<Copy>, taken: seq<Copy>, queue: seq<Copy>,
                     queue': seq<Copy>)
    requires forwarded + queue <= received && (given != [] ==> forwarded + queue == received)
    requires taken + queue' <= queue + given
    ensures forwarded + taken + queue' <= received + given
    ensures forwarded + queue == received && taken + queue' == queue + given ==>
              forwarded + taken + queue' == received + given
  {
    assert forwarded + taken + queue' == forwarded + (taken + queue');
    assert forwarded + queue + given == forwarded + (queue + given);
    if given == [] { assert queue + given == queue && received + given == received; }
    var x, z := taken + queue', queue + given;
    assert z == x + z[|x|..];
    assert forwarded + z == forwarded + x + z[|x|..];
  }

  lemma MoveKeepsSequence<C>(received: seq<Copy>, forwarded: seq<Copy>, y: System<C>, m: Move<C>, id: SubId)
    requires Possible(y, m) && TableLive(y.ps) && Through(received, forwarded, y, id)
    ensures Through(received + Given(y, m, id), forwarded + Taken(y, m, id), Next(y, m), id)
  {
    QueueAfter(y, m, id);
    if IsClosed(y.ps, id) { ClosedStays(y, m, id); }
    assert m == Cut(id) ==> Queue(y, id) + Given(y, m, id) == Queue(y, id);
    SequenceStep(received, Given(y, m, id), forwarded, Taken(y, m, id), Queue(y, id), Queue(Next(y, m), id));
  }

  lemma {:induction false} FirstInFirstOut<C>(user: map<C, UserId>, ys: seq<System<C>>, ms: seq<Move<C>>, n: nat,
                                              id: SubId)
    requires IsSystemRun(user, ys, ms) && n <= |ms|
    ensures InSequence(ys, ms, n, id)
  {
    if n > 0 {
      FirstInFirstOut(user, ys, ms, n - 1, id);
      TableStaysLive(user, ys, ms, n - 1);
      assert Follows(ys, ms, n - 1);
      MoveKeepsSequence(Received(ys, ms, n - 1, id), Forwarded(ys, ms, n - 1, id), ys[n - 1], ms[n - 1], id);
    }
  }

  /** How often a copy was passed on. */
  ghost function Times<C>(ys: seq<System<C>>, ms: seq<Move<C>>, n: nat, copy: Copy): nat
    requires n <= |ms| <= |ys|
  {
    if n == 0 then 0
    else Times(ys, ms, n - 1, copy) + if copy in Taken(ys[n - 1], ms[n - 1], copy.sub) then 1 else 0
  }

  /** How often a copy was received. */
  ghost function Arrivals<C>(ys: seq<System<C>>, ms: seq<Move<C>>, n: nat, copy: Copy): nat
    requires n <= |ms| <= |ys|
  {
    if n == 0 then 0
    else Arrivals(ys, ms, n - 1, copy) + if copy in Given(ys[n - 1], ms[n - 1], copy.sub) then 1 else 0
  }

  lemma CountOneMore<T>(s: seq<T>, more: seq<T>, x: T)
    requires |more| <= 1
    ensures multiset(s + more)[x] == multiset(s)[x] + if x in more then 1 else 0
  {
    if more == [] { assert s + more == s; } else { assert more == [more[0]]; }
  }

  lemma {:induction false} TimesCounts<C>(ys: seq<System<C>>, ms: seq<Move<C>>, n: nat, copy: Copy)
    requires n <= |ms| <= |ys|
    ensures Times(ys, ms, n, copy) == multiset(Forwarded(ys, ms, n, copy.sub))[copy]
  {
    if n > 0 {
      TimesCounts(ys, ms, n - 1, copy);
      CountOneMore(Forwarded(ys, ms, n - 1, copy.sub), Taken(ys[n - 1], ms[n - 1], copy.sub), copy);
    }
  }

  lemma {:induction false} ArrivalsCount<C>(ys: seq<System<C>>, ms: seq<Move<C>>, n: nat, copy: Copy)
    requires n <= |ms| <= |ys|
    ensures Arrivals(ys, ms, n, copy) == multiset(Received(ys, ms, n, copy.sub))[copy]
  {
    if n > 0 {
      ArrivalsCount(ys, ms, n - 1, copy);
      CountOneMore(Received(ys, ms, n - 1, copy.sub), Given(ys[n - 1], ms[n - 1], copy.sub), copy);
    }
  }

  /** A copy received is passed on, on its way, or lost with its closed subscription, and never more than one of
      these. */
  lemma CopiesConserved<C>(user: map<C, UserId>, ys: seq<System<C>>, ms: seq<Move<C>>, n: nat, copy: Copy)
    requires IsSystemRun(user, ys, ms) && n <= |ms|
    ensures var ahead := multiset(Queue(ys[n], copy.sub))[copy];
            && Times(ys, ms, n, copy) + ahead <= Arrivals(ys, ms, n, copy)
            && (!IsClosed(ys[n].ps, copy.sub) ==> Times(ys, ms, n, copy) + ahead == Arrivals(ys, ms, n, copy))
  {
    FirstInFirstOut(user, ys, ms, n, copy.sub);
    TimesCounts(ys, ms, n, copy);
    ArrivalsCount(ys, ms, n, copy);
    CountPrefix(Forwarded(ys, ms, n, copy.sub), Queue(ys[n], copy.sub), Received(ys, ms, n, copy.sub), copy);
  }

  lemma CountPrefix<T>(a: seq<T>, b: seq<T>, all: seq<T>, x: T)
    requires a + b <= all
    ensures multiset(a)[x] + multiset(b)[x] <= multiset(all)[x]
    ensures a + b == all ==> multiset(a)[x] + multiset(b)[x] == multiset(all)[x]
  {
    assert all == a + b + all[|a + b|..];
  }

  // ---------- Offers ----------

  /** Only a broadcast event for the room offers its payload, once, to the room's clients of that moment. */
  lemma PayloadOnlyByBroadcast<C>(s: HubState<C>, e: Event<C>, d: C, r: RoomId, data: nat)
    ensures multiset(Mail(s, e, d))[Payload(r, data)]
         == if e.req == Broadcast(r, data) && d in InRoom(s.rooms, r) then 1 else 0
  {
    if e.req.Unregister? {
      NoPayloadInFarewell(s, e, d, r, data);
    } else {
      PayloadMail(s, e, d, r, data);
      AtMostOnce(Mail(s, e, d), Payload(r, data));
    }
  }

  lemma NoPayloadInFarewell<C>(s: HubState<C>, e: Event<C>, d: C, r: RoomId, data: nat)
    requires e.req.Unregister?
    ensures Payload(r, data) !in Mail(s, e, d)
  {
    WhatGoodbyesSay(s.voice, UserOf(s, e.req.c), e.req.c, d, e.choice.voice, Payload(r, data));
  }

  lemma PayloadMail<C>(s: HubState<C>, e: Event<C>, d: C, r: RoomId, data: nat)
    requires !e.req.Unregister?
    ensures |Mail(s, e, d)| <= 1
    ensures Payload(r, data) in Mail(s, e, d) <==> e.req == Broadcast(r, data) && d in InRoom(s.rooms, r)
  {}

  lemma AtMostOnce(ms: seq<Msg>, m: Msg)
    requires |ms| <= 1
    ensures multiset(ms)[m] == if m in ms then 1 else 0
  {
    if ms != [] { assert ms == [ms[0]]; }
  }

  ghost function Offers<C>(s: HubState<C>, d: C, r: RoomId, data: nat): nat {
    if d in s.box then multiset(s.box[d].offered)[Payload(r, data)] else 0
  }

  lemma OfferedByOneEvent<C>(user: map<C, UserId>, es: seq<Event<C>>, e: Event<C>, d: C, r: RoomId, data: nat)
    requires IsRun(Fresh(user), es + [e]) && InOrder(es + [e]) && d in user
    ensures Offers(Exec(Fresh(user), es + [e]), d, r, data) == Offers(Exec(Fresh(user), es), d, r, data)
              + if e.req == Broadcast(r, data) && d in InRoom(Exec(Fresh(user), es).rooms, r) then 1 else 0
  {
    var s := Exec(Fresh(user), es);
    assert (es + [e])[..|es|] == es;
    InOrderPrefix(es + [e], |es|);
    ConsumedSoFar(user, es, d);
    assert s.clients <= s.joined.Keys && |s.box[d].buf| <= SEND_BUFFER_SIZE by { RunKeepsIndex(user, es); }
    StepMail(s, e, d);
    OfferSeqEffect(s.box[d], Mail(s, e, d));
    PayloadOnlyByBroadcast(s, e, d, r, data);
    ConsumedSoFar(user, es + [e], d);
  }

  /** The move brings a copy of (r, data) to the hub. */
  ghost predicate Brings<C>(y: System<C>, m: Move<C>, r: RoomId, data: nat) {
    m.Forward? && Queue(y, m.id) != [] && Queue(y, m.id)[0].room == r && Queue(y, m.id)[0].data == data
  }

  /** ... while d is in the room. */
  ghost predicate Reaches<C>(y: System<C>, m: Move<C>, d: C, r: RoomId, data: nat) {
    Brings(y, m, r, data) && d in InRoom(y.hub.rooms, r)
  }

  ghost function Heard<C>(ys: seq<System<C>>, ms: seq<Move<C>>, n: nat, d: C, r: RoomId, data: nat): nat
    requires n <= |ms| <= |ys|
  {
    if n == 0 then 0 else Heard(ys, ms, n - 1, d, r, data) + if Reaches(ys[n - 1], ms[n - 1], d, r, data) then 1 else 0
  }

  lemma BringsBroadcast<C>(y: System<C>, m: Move<C>, r: RoomId, data: nat)
    requires Possible(y, m)
    ensures Brings(y, m, r, data) <==> HubPart(y, m) != [] && HubPart(y, m)[0].req == Broadcast(r, data)
  {}

  /** What the n-th move adds to the hub's run, and what it brings. */
  lemma HubMoveBrings<C>(user: map<C, UserId>, ys: seq<System<C>>, ms: seq<Move<C>>, n: nat, r: RoomId, data: nat)
    returns (part: seq<Event<C>>)
    requires IsSystemRun(user, ys, ms) && 0 < n <= |ms|
    ensures |part| <= 1 && HubEvents(ys, ms, n) == HubEvents(ys, ms, n - 1) + part
    ensures part != [] ==> Enabled(ys[n - 1].hub, part[0])
    ensures ys[n].hub == if part == [] then ys[n - 1].hub else Step(ys[n - 1].hub, part[0])
    ensures Brings(ys[n - 1], ms[n - 1], r, data) <==> part != [] && part[0].req == Broadcast(r, data)
  {
    OneMoreMove(user, ys, ms, n);
    HubAfter(ys[n - 1], ms[n - 1]);
    BringsBroadcast(ys[n - 1], ms[n - 1], r, data);
    part := HubPart(ys[n - 1], ms[n - 1]);
  }

  lemma OfferedByPart<C>(user: map<C, UserId>, es: seq<Event<C>>, part: seq<Event<C>>, es': seq<Event<C>>,
                         s: HubState<C>, s': HubState<C>, d: C, r: RoomId, data: nat)
    requires IsRun(Fresh(user), es) && s == Exec(Fresh(user), es) && |part| <= 1 && (part != [] ==> Enabled(s, part[0]))
    requires s' == if part == [] then s else Step(s, part[0])
    requires es' == es + part && InOrder(es') && d in user
    ensures Offers(s', d, r, data) == Offers(s, d, r, data)
              + if part != [] && part[0].req == Broadcast(r, data) && d in InRoom(s.rooms, r) then 1 else 0
  {
    if part != [] {
      var e := part[0];
      assert part == [e] && es' == es + [e] && IsRun(Fresh(user), es + [e]) && Exec(Fresh(user), es + [e]) == s' by {
        RunSnoc(Fresh(user), es, e);
      }
      OfferedByOneEvent(user, es, e, d, r, data);
    }
  }

  lemma NothingOffered<C>(user: map<C, UserId>, d: C, r: RoomId, data: nat)
    requires d in user
    ensures Offers(Starting(user).hub, d, r, data) == 0
  {}

  lemma OfferedByMove<C>(user: map<C, UserId>, ys: seq<System<C>>, ms: seq<Move<C>>, n: nat, d: C, r: RoomId,
                         data: nat)
    requires IsSystemRun(user, ys, ms) && 0 < n <= |ms| && d in user
    ensures InOrder(HubEvents(ys, ms, n)) ==>
              Offers(ys[n].hub, d, r, data)
              == Offers(ys[n - 1].hub, d, r, data) + if Reaches(ys[n - 1], ms[n - 1], d, r, data) then 1 else 0
  {
    HubMatches(user, ys, ms, n - 1);
    OfferedOneMore(user, ys, ms, n, d, r, data);
  }

  lemma {:induction false} OfferedWhenHeard<C>(user: map<C, UserId>, ys: seq<System<C>>, ms: seq<Move<C>>, n: nat,
                                               d: C, r: RoomId, data: nat)
    requires IsSystemRun(user, ys, ms) && n <= |ms| && InOrder(HubEvents(ys, ms, n)) && d in user
    ensures Offers(ys[n].hub, d, r, data) == Heard(ys, ms, n, d, r, data)
  {
    if n == 0 {
      NothingOffered(user, d, r, data);
    } else {
      InOrderBefore(ys, ms, n);
      OfferedWhenHeard(user, ys, ms, n - 1, d, r, data);
      OfferedByMove(user, ys, ms, n, d, r, data);
    }
  }

  lemma InOrderBefore<C>(ys: seq<System<C>>, ms: seq<Move<C>>, n: nat)
    requires 0 < n <= |ms| <= |ys| && InOrder(HubEvents(ys, ms, n))
    ensures InOrder(HubEvents(ys, ms, n - 1))
  {
    var before := HubEvents(ys, ms, n - 1);
    InOrderPrefix(HubEvents(ys, ms, n), |before|);
    assert HubEvents(ys, ms, n)[..|before|] == before;
  }

  lemma OfferedOneMore<C>(user: map<C, UserId>, ys: seq<System<C>>, ms: seq<Move<C>>, n: nat, d: C, r: RoomId,
                          data: nat)
    requires IsSystemRun(user, ys, ms) && 0 < n <= |ms| && HubMatched(user, ys, ms, n - 1) && d in user
    ensures InOrder(HubEvents(ys, ms, n)) ==>
              Offers(ys[n].hub, d, r, data)
              == Offers(ys[n - 1].hub, d, r, data) + if Reaches(ys[n - 1], ms[n - 1], d, r, data) then 1 else 0
  {
    if InOrder(HubEvents(ys, ms, n)) {
      var part := HubMoveBrings(user, ys, ms, n, r, data);
      OfferedByPart(user, HubEvents(ys, ms, n - 1), part, HubEvents(ys, ms, n), ys[n - 1].hub, ys[n].hub, d, r, data);
    }
  }

  // ---------- One publication ----------

  lemma GivenExactly<C>(y: System<C>, m: Move<C>, copy: Copy)
    ensures copy in Given(y, m, copy.sub)
       <==> Publishes(y, m, copy.room, copy.data) && copy.sub in Receivers(y.ps, copy.room)
  {}

  /** A message published once is received, once, by exactly the subscriptions that were open for it then. */
  lemma {:induction false} ReceivedAtPublication<C>(ys: seq<System<C>>, ms: seq<Move<C>>, n: nat, k: nat, copy: Copy)
    requires k < n <= |ms| <= |ys| && Publishes(ys[k], ms[k], copy.room, copy.data)
    requires Publications(ys, ms, n, copy.room, copy.data) == 1
    ensures Arrivals(ys, ms, n, copy) == if copy.sub in Receivers(ys[k].ps, copy.room) then 1 else 0
  {
    GivenExactly(ys[n - 1], ms[n - 1], copy);
    if k == n - 1 {
      NotPublished(ys, ms, n - 1, copy);
    } else {
      PublishedBefore(ys, ms, n - 1, k, copy.room, copy.data);
      ReceivedAtPublication(ys, ms, n - 1, k, copy);
    }
  }

  lemma {:induction false} NotPublished<C>(ys: seq<System<C>>, ms: seq<Move<C>>, n: nat, copy: Copy)
    requires n <= |ms| <= |ys| && Publications(ys, ms, n, copy.room, copy.data) == 0
    ensures Arrivals(ys, ms, n, copy) == 0
  {
    if n > 0 {
      GivenExactly(ys[n - 1], ms[n - 1], copy);
      NotPublished(ys, ms, n - 1, copy);
    }
  }

  lemma {:induction false} PublishedBefore<C>(ys: seq<System<C>>, ms: seq<Move<C>>, n: nat, k: nat, r: RoomId,
                                              data: nat)
    requires k < n <= |ms| <= |ys| && Publishes(ys[k], ms[k], r, data)
    ensures Publications(ys, ms, n, r, data) >= 1
  {
    if k < n - 1 { PublishedBefore(ys, ms, n - 1, k, r, data); }
  }

  /** The subscriptions that have passed (r, data) on. */
  ghost function Carriers<C>(ys: seq<System<C>>, ms: seq<Move<C>>, n: nat, r: RoomId, data: nat): set<SubId>
    requires n <= |ms| <= |ys|
  {
    if n == 0 then {}
    else Carriers(ys, ms, n - 1, r, data) + if Brings(ys[n - 1], ms[n - 1], r, data) then {ms[n - 1].id} else {}
  }

  /** Every queue holds only copies made for its subscription. */
  lemma {:induction false} OwnCopies<C>(user: map<C, UserId>, ys: seq<System<C>>, ms: seq<Move<C>>, n: nat, id: SubId)
    requires IsSystemRun(user, ys, ms) && n <= |ms|
    ensures forall copy <- Queue(ys[n], id) :: copy.sub == id
  {
    if n > 0 {
      OwnCopies(user, ys, ms, n - 1, id);
      assert Follows(ys, ms, n - 1);
      QueueAfter(ys[n - 1], ms[n - 1], id);
      OwnCopiesStay(Queue(ys[n - 1], id), Given(ys[n - 1], ms[n - 1], id), Taken(ys[n - 1], ms[n - 1], id),
                    Queue(ys[n], id), id);
    }
  }

  lemma OwnCopiesStay(queue: seq<Copy>, given: seq<Copy>, taken: seq<Copy>, queue': seq<Copy>, id: SubId)
    requires forall copy <- queue + given :: copy.sub == id
    requires taken + queue' <= queue + given
    ensures forall copy <- queue' :: copy.sub == id
  {
    forall copy <- queue' ensures copy.sub == id {
      assert copy in taken + queue';
    }
  }

  lemma {:induction false} CarriersPassedOn<C>(user: map<C, UserId>, ys: seq<System<C>>, ms: seq<Move<C>>, n: nat,
                                               r: RoomId, data: nat, id: SubId)
    requires IsSystemRun(user, ys, ms) && n <= |ms|
    ensures id in Carriers(ys, ms, n, r, data) <==> Times(ys, ms, n, Copy(r, id, data)) > 0
  {
    if n > 0 {
      CarriersPassedOn(user, ys, ms, n - 1, r, data, id);
      OwnCopies(user, ys, ms, n - 1, id);
      CarriersOneMore(ys, ms, n, r, data, id);
    }
  }

  lemma CarriersOneMore<C>(ys: seq<System<C>>, ms: seq<Move<C>>, n: nat, r: RoomId, data: nat, id: SubId)
    requires 0 < n <= |ms| <= |ys| && forall copy <- Queue(ys[n - 1], id) :: copy.sub == id
    ensures (id in Carriers(ys, ms, n - 1, r, data) <==> Times(ys, ms, n - 1, Copy(r, id, data)) > 0) ==>
              (id in Carriers(ys, ms, n, r, data) <==> Times(ys, ms, n, Copy(r, id, data)) > 0)
  {
    BringsOwn(ys[n - 1], ms[n - 1], r, data, id);
  }

  lemma BringsOwn<C>(y: System<C>, m: Move<C>, r: RoomId, data: nat, id: SubId)
    requires forall copy <- Queue(y, id) :: copy.sub == id
    ensures Brings(y, m, r, data) && m.id == id <==> Copy(r, id, data) in Taken(y, m, id)
  {}

  /** A subscription that brings (r, data) for the first and only time is not a carrier yet. */
  lemma NotACarrierYet<C>(user: map<C, UserId>, ys: seq<System<C>>, ms: seq<Move<C>>, n: nat, r: RoomId, data: nat)
    requires IsSystemRun(user, ys, ms) && 0 < n <= |ms| && Brings(ys[n - 1], ms[n - 1], r, data)
    requires Seldom(ys, ms, n, r, data)
    ensures ms[n - 1].id !in Carriers(ys, ms, n - 1, r, data)
  {
    var id := ms[n - 1].id;
    OwnCopies(user, ys, ms, n - 1, id);
    CarriersPassedOn(user, ys, ms, n - 1, r, data, id);
    assert Times(ys, ms, n, Copy(r, id, data)) <= 1;
    NotTwice(ys, ms, n, r, data, id);
  }

  lemma NotTwice<C>(ys: seq<System<C>>, ms: seq<Move<C>>, n: nat, r: RoomId, data: nat, id: SubId)
    requires 0 < n <= |ms| <= |ys| && Brings(ys[n - 1], ms[n - 1], r, data) && ms[n - 1].id == id
    requires Times(ys, ms, n, Copy(r, id, data)) <= 1 && forall copy <- Queue(ys[n - 1], id) :: copy.sub == id
    ensures Times(ys, ms, n - 1, Copy(r, id, data)) == 0
  {
    BringsOwn(ys[n - 1], ms[n - 1], r, data, id);
  }

  /** While no copy is passed on twice, a client that is in the room at every forward hears (r, data) once per
      carrier. */
  lemma {:induction false} HeardPerCarrier<C>(user: map<C, UserId>, ys: seq<System<C>>, ms: seq<Move<C>>, n: nat,
                                              d: C, r: RoomId, data: nat)
    requires IsSystemRun(user, ys, ms) && n <= |ms|
    requires Seldom(ys, ms, n, r, data)
    requires Present(ys, ms, n, d, r, data)
    ensures Heard(ys, ms, n, d, r, data) == |Carriers(ys, ms, n, r, data)|
  {
    if n > 0 {
      SeldomBefore(ys, ms, n, r, data);
      HeardPerCarrier(user, ys, ms, n - 1, d, r, data);
      HeardStep(user, ys, ms, n, d, r, data);
    }
  }

  /** d was in the room whenever one of the first n moves brought (r, data). */
  ghost predicate Present<C>(ys: seq<System<C>>, ms: seq<Move<C>>, n: nat, d: C, r: RoomId, data: nat)
    requires n <= |ms| <= |ys|
  {
    forall k | 0 <= k < n && Brings(ys[k], ms[k], r, data) :: d in InRoom(ys[k].hub.rooms, r)
  }

  lemma HeardStep<C>(user: map<C, UserId>, ys: seq<System<C>>, ms: seq<Move<C>>, n: nat, d: C, r: RoomId, data: nat)
    requires IsSystemRun(user, ys, ms) && 0 < n <= |ms| && Seldom(ys, ms, n, r, data) && Present(ys, ms, n, d, r, data)
    ensures Heard(ys, ms, n - 1, d, r, data) == |Carriers(ys, ms, n - 1, r, data)| ==>
              Heard(ys, ms, n, d, r, data) == |Carriers(ys, ms, n, r, data)|
  {
    if Brings(ys[n - 1], ms[n - 1], r, data) { NotACarrierYet(user, ys, ms, n, r, data); }
    if Heard(ys, ms, n - 1, d, r, data) == |Carriers(ys, ms, n - 1, r, data)| { HeardOneMore(ys, ms, n, d, r, data); }
  }

  /** No copy of (r, data) was passed on twice by the first n moves. */
  ghost predicate Seldom<C>(ys: seq<System<C>>, ms: seq<Move<C>>, n: nat, r: RoomId, data: nat)
    requires n <= |ms| <= |ys|
  {
    forall id: SubId :: Times(ys, ms, n, Copy(r, id, data)) <= 1
  }

  lemma SeldomBefore<C>(ys: seq<System<C>>, ms: seq<Move<C>>, n: nat, r: RoomId, data: nat)
    requires 0 < n <= |ms| <= |ys| && Seldom(ys, ms, n, r, data)
    ensures Seldom(ys, ms, n - 1, r, data)
  {
    forall id: SubId ensures Times(ys, ms, n - 1, Copy(r, id, data)) <= 1 {
      assert Times(ys, ms, n, Copy(r, id, data)) <= 1;
    }
  }

  lemma HeardOneMore<C>(ys: seq<System<C>>, ms: seq<Move<C>>, n: nat, d: C, r: RoomId, data: nat)
    requires 0 < n <= |ms| <= |ys| && Heard(ys, ms, n - 1, d, r, data) == |Carriers(ys, ms, n - 1, r, data)|
    requires Brings(ys[n - 1], ms[n - 1], r, data) ==>
               ms[n - 1].id !in Carriers(ys, ms, n - 1, r, data) && d in InRoom(ys[n - 1].hub.rooms, r)
    ensures Heard(ys, ms, n, d, r, data) == |Carriers(ys, ms, n, r, data)|
  {}

  /** What has become of a copy by the end of a run, and who was offered its message. */
  ghost predicate Fate<C>(ys: seq<System<C>>, ms: seq<Move<C>>, copy: Copy, d: C, k: nat)
    requires |ys| == |ms| + 1
  {
    var offers := Offers(ys[|ms|].hub, d, copy.room, copy.data);
    || (multiset(Queue(ys[|ms|], copy.sub))[copy] == 1 && offers == 0)
    || (IsClosed(ys[|ms|].ps, copy.sub) && offers == 0)
    || (k < |ms| && copy in Taken(ys[k], ms[k], copy.sub)
        && offers == if d in InRoom(ys[k].hub.rooms, copy.room) then 1 else 0)
  }

  /** Nothing but `copy` brings its message to the hub. */
  ghost predicate OnlyCarrier<C>(ys: seq<System<C>>, ms: seq<Move<C>>, n: nat, copy: Copy)
    requires n <= |ms| <= |ys|
  {
    forall id: SubId | id != copy.sub :: Times(ys, ms, n, Copy(copy.room, id, copy.data)) == 0
  }

  lemma OnlyCarrierBefore<C>(ys: seq<System<C>>, ms: seq<Move<C>>, n: nat, copy: Copy)
    requires 0 < n <= |ms| <= |ys| && OnlyCarrier(ys, ms, n, copy)
    ensures OnlyCarrier(ys, ms, n - 1, copy)
    ensures forall id: SubId | id != copy.sub :: Copy(copy.room, id, copy.data) !in Taken(ys[n - 1], ms[n - 1], id)
  {
    forall id: SubId | id != copy.sub
      ensures Times(ys, ms, n - 1, Copy(copy.room, id, copy.data)) == 0
      ensures Copy(copy.room, id, copy.data) !in Taken(ys[n - 1], ms[n - 1], id)
    {
      assert Times(ys, ms, n, Copy(copy.room, id, copy.data)) == 0;
    }
  }

  /** Which move brings the message, when only `copy` does. */
  lemma BringsOnlyCopy<C>(user: map<C, UserId>, ys: seq<System<C>>, ms: seq<Move<C>>, n: nat, copy: Copy)
    requires IsSystemRun(user, ys, ms) && n < |ms|
    requires forall id: SubId | id != copy.sub :: Copy(copy.room, id, copy.data) !in Taken(ys[n], ms[n], id)
    ensures Brings(ys[n], ms[n], copy.room, copy.data) <==> copy in Taken(ys[n], ms[n], copy.sub)
  {
    if ms[n].Forward? {
      OwnCopies(user, ys, ms, n, ms[n].id);
      BringsOwn(ys[n], ms[n], copy.room, copy.data, ms[n].id);
    }
  }

  lemma HeardOneCopyMore<C>(user: map<C, UserId>, ys: seq<System<C>>, ms: seq<Move<C>>, n: nat, copy: Copy, d: C)
    requires IsSystemRun(user, ys, ms) && 0 < n <= |ms| && OnlyCarrier(ys, ms, n, copy)
    ensures var now := copy in Taken(ys[n - 1], ms[n - 1], copy.sub);
            && Times(ys, ms, n, copy) == Times(ys, ms, n - 1, copy) + (if now then 1 else 0)
            && Heard(ys, ms, n, d, copy.room, copy.data) == Heard(ys, ms, n - 1, d, copy.room, copy.data)
                 + if now && d in InRoom(ys[n - 1].hub.rooms, copy.room) then 1 else 0
  {
    OnlyCarrierBefore(ys, ms, n, copy);
    BringsOnlyCopy(user, ys, ms, n - 1, copy);
  }

  /** When (r, data) travels only as `copy`, d hears it if `copy` was passed on while d was in the room. */
  lemma {:induction false} TheForward<C>(user: map<C, UserId>, ys: seq<System<C>>, ms: seq<Move<C>>, n: nat,
                                         copy: Copy, d: C)
    returns (k: nat)
    requires IsSystemRun(user, ys, ms) && n <= |ms| && OnlyCarrier(ys, ms, n, copy) && Times(ys, ms, n, copy) <= 1
    ensures Times(ys, ms, n, copy) == 0 ==> Heard(ys, ms, n, d, copy.room, copy.data) == 0
    ensures Times(ys, ms, n, copy) == 1 ==>
              && k < n && copy in Taken(ys[k], ms[k], copy.sub)
              && Heard(ys, ms, n, d, copy.room, copy.data) == if d in InRoom(ys[k].hub.rooms, copy.room) then 1 else 0
  {
    k := 0;
    if n > 0 {
      OnlyCarrierBefore(ys, ms, n, copy);
      HeardOneCopyMore(user, ys, ms, n, copy, d);
      k := TheForward(user, ys, ms, n - 1, copy, d);
      if copy in Taken(ys[n - 1], ms[n - 1], copy.sub) { k := n - 1; }
    }
  }

  /** Exactly-once fan-out. A message is published to r once, by move n, when no Unsubscribe for r has missed its
      subscription and neither a store nor a close for r is outstanding. If the adapter has no entry for r then,
      nobody is ever offered it. Otherwise there is one copy of it: nobody is offered the message while that is on its
      way, or if it was lost with its closed subscription; else the hub received it with some move k, which offered it
      once to each client in the room at that time and to nobody else. */
  lemma FanOutExactlyOnce<C>(user: map<C, UserId>, ys: seq<System<C>>, ms: seq<Move<C>>, n: nat, r: RoomId,
                             data: nat, d: C)
    returns (k: nat)
    requires IsSystemRun(user, ys, ms) && InOrder(HubEvents(ys, ms, |ms|)) && d in user
    requires n < |ms| && Publishes(ys[n], ms[n], r, data) && Publications(ys, ms, |ms|, r, data) == 1
    requires ys[n].ps.missed[r] == 0 && Settled(ys[n].ps, r)
    ensures r !in ys[n].ps.subs ==> Offers(ys[|ms|].hub, d, r, data) == 0
    ensures r in ys[n].ps.subs ==> Fate(ys, ms, Copy(r, ys[n].ps.subs[r], data), d, k)
  {
    var subs, end := ys[n].ps.subs, |ms|;
    var copy := Copy(r, if r in subs then subs[r] else 0, data);
    OneReceiver(user, ys, ms, n, r);
    OfferedWhenHeard(user, ys, ms, end, d, r, data);
    forall id: SubId
      ensures Times(ys, ms, end, Copy(r, id, data)) <= if r in subs && id == subs[r] then 1 else 0
    {
      WhatBecomesOf(user, ys, ms, n, Copy(r, id, data));
    }
    k := TheForward(user, ys, ms, end, copy, d);
    WhatBecomesOf(user, ys, ms, n, copy);
  }

  /** Only the subscription in the table receives. */
  lemma OneReceiver<C>(user: map<C, UserId>, ys: seq<System<C>>, ms: seq<Move<C>>, n: nat, r: RoomId)
    requires IsSystemRun(user, ys, ms) && n <= |ms| && ys[n].ps.missed[r] == 0 && Settled(ys[n].ps, r)
    ensures Receivers(ys[n].ps, r) == if r in ys[n].ps.subs then {ys[n].ps.subs[r]} else {}
  {
    AdapterFollowsHub(user, ys, ms, n);
    SystemMatches(user, ys, ms, n);
    TableIsOpenRooms(PsSteps(ys, ms, n), r);
    ReceiversCounted(PsSteps(ys, ms, n), r);
  }

  /** By the end, a copy of a message published once, by move n, has been passed on, is on its way, or is lost. */
  lemma WhatBecomesOf<C>(user: map<C, UserId>, ys: seq<System<C>>, ms: seq<Move<C>>, n: nat, copy: Copy)
    requires IsSystemRun(user, ys, ms) && n < |ms| && Publishes(ys[n], ms[n], copy.room, copy.data)
    requires Publications(ys, ms, |ms|, copy.room, copy.data) == 1
    ensures var ahead := multiset(Queue(ys[|ms|], copy.sub))[copy];
            var times := Times(ys, ms, |ms|, copy);
            if copy.sub in Receivers(ys[n].ps, copy.room)
            then times <= 1 && (times == 1 || ahead == 1 || IsClosed(ys[|ms|].ps, copy.sub))
            else times == 0
  {
    ReceivedAtPublication(ys, ms, |ms|, n, copy);
    CopiesConserved(user, ys, ms, |ms|, copy);
  }

  // ---------- How often, in general ----------

  /** Every copy of (r, data) handed out has been passed on. */
  ghost predicate AllPassedOn<C>(ys: seq<System<C>>, ms: seq<Move<C>>, n: nat, r: RoomId, data: nat)
    requires n < |ms| < |ys|
  {
    forall id <- Receivers(ys[n].ps, r) :: Times(ys, ms, |ms|, Copy(r, id, data)) == 1
  }

  lemma CarriersAreReceivers<C>(user: map<C, UserId>, ys: seq<System<C>>, ms: seq<Move<C>>, n: nat, r: RoomId,
                                data: nat)
    requires IsSystemRun(user, ys, ms) && n < |ms|
    requires Publishes(ys[n], ms[n], r, data) && Publications(ys, ms, |ms|, r, data) == 1
             && AllPassedOn(ys, ms, n, r, data)
    ensures Seldom(ys, ms, |ms|, r, data)
    ensures Carriers(ys, ms, |ms|, r, data) == Receivers(ys[n].ps, r)
  {
    forall id: SubId
      ensures Times(ys, ms, |ms|, Copy(r, id, data)) == if id in Receivers(ys[n].ps, r) then 1 else 0
      ensures id in Carriers(ys, ms, |ms|, r, data) <==> id in Receivers(ys[n].ps, r)
    {
      ReceivedAtPublication(ys, ms, |ms|, n, Copy(r, id, data));
      CopiesConserved(user, ys, ms, |ms|, Copy(r, id, data));
      CarriersPassedOn(user, ys, ms, |ms|, r, data, id);
    }
  }

  /** A message published once, with no store or close for r outstanding, gets one copy for the room if it is open and
      one for every Unsubscribe that missed. Once all are passed on, a client that was in the room each time is
      offered the message that often. */
  lemma OfferedPerSubscription<C>(user: map<C, UserId>, ys: seq<System<C>>, ms: seq<Move<C>>, n: nat, r: RoomId,
                                  data: nat, d: C)
    requires IsSystemRun(user, ys, ms) && InOrder(HubEvents(ys, ms, |ms|)) && d in user
    requires n < |ms| && Publishes(ys[n], ms[n], r, data) && Publications(ys, ms, |ms|, r, data) == 1
    requires Settled(ys[n].ps, r) && AllPassedOn(ys, ms, n, r, data)
    requires Present(ys, ms, |ms|, d, r, data)
    ensures Offers(ys[|ms|].hub, d, r, data) == |Receivers(ys[n].ps, r)|
                                             == (if r in Open(PsSteps(ys, ms, n)) then 1 else 0) + ys[n].ps.missed[r]
  {
    SystemMatches(user, ys, ms, n);
    AdapterFollowsHub(user, ys, ms, n);
    ReceiversCounted(PsSteps(ys, ms, n), r);
    CarriersAreReceivers(user, ys, ms, n, r, data);
    HeardPerCarrier(user, ys, ms, |ms|, d, r, data);
    OfferedWhenHeard(user, ys, ms, |ms|, d, r, data);
  }

  /** So a client of an open room is offered the message once exactly if no Unsubscribe for the room has missed. */
  lemma OfferedOnceIff<C>(user: map<C, UserId>, ys: seq<System<C>>, ms: seq<Move<C>>, n: nat, r: RoomId, data: nat,
                          d: C)
    requires IsSystemRun(user, ys, ms) && InOrder(HubEvents(ys, ms, |ms|)) && d in user
    requires n < |ms| && Publishes(ys[n], ms[n], r, data) && Publications(ys, ms, |ms|, r, data) == 1
    requires Settled(ys[n].ps, r) && AllPassedOn(ys, ms, n, r, data)
    requires Present(ys, ms, |ms|, d, r, data)
    requires SubCalls(ys[n].due) == [] && InRoom(ys[n].hub.rooms, r) != {}
    ensures Offers(ys[|ms|].hub, d, r, data) == 1 <==> ys[n].ps.missed[r] == 0
  {
    OfferedPerSubscription(user, ys, ms, n, r, data, d);
    SystemMatches(user, ys, ms, n);
    AdapterFollowsHub(user, ys, ms, n);
  }
}
