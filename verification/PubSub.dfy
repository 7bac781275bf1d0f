/** The Redis pub/sub adapter together with the goroutines the hub starts for it. `joinRoom` starts a goroutine that
    will store its subscription in the table under a mutex; `leaveRoom` calls Unsubscribe inline. The steps below
    interleave freely. */
module PubSubModel {
  import opened Domain
  import opened Mailboxes
  import opened HubModel
  import opened HubIndex

  type SubId = nat

  /** Pending: the goroutine was started and has not stored its subscription yet. Live: stored, its receive loop
      forwards messages. Closing: Unsubscribe deleted its table entry and has not closed it yet. Closed: it has. */
  datatype Phase = Pending | Live | Closing | Closed

  datatype Handle = Handle(room: RoomId, phase: Phase)

  /** `subs` is the adapter's table; `handles` lists every subscription ever started, `latest` the room's latest one,
      and `missed` the Unsubscribe calls that found no entry in the table. */
  datatype PubSub = PubSub(subs: map<RoomId, SubId>, handles: seq<Handle>,
                           latest: map<RoomId, SubId>, missed: multiset<RoomId>)

  datatype PsStep = Spawn(room: RoomId) | Drop(room: RoomId) | Close(id: SubId) | Store(id: SubId)

  const EMPTY_PUBSUB := PubSub(map[], [], map[], multiset{})

  ghost function SpawnStep(ps: PubSub, r: RoomId): PubSub {
    ps.(handles := ps.handles + [Handle(r, Pending)], latest := ps.latest[r := |ps.handles|])
  }

  ghost function WithPhase(hs: seq<Handle>, id: SubId, phase: Phase): seq<Handle> {
    if id < |hs| then hs[id := hs[id].(phase := phase)] else hs
  }

  /** The mutex section of `Unsubscribe`: delete the table entry, if there is one. */
  ghost function DropStep(ps: PubSub, r: RoomId): PubSub {
    if r in ps.subs then ps.(subs := ps.subs - {r}, handles := WithPhase(ps.handles, ps.subs[r], Closing))
    else ps.(missed := ps.missed + multiset{r})
  }

  /** `sub.Close()`, after the mutex was released. */
  ghost function CloseStep(ps: PubSub, id: SubId): PubSub {
    ps.(handles := WithPhase(ps.handles, id, Closed))
  }

  /** The mutex section of `Subscribe`. */
  ghost function StoreStep(ps: PubSub, id: SubId): PubSub {
    if id < |ps.handles| then
      ps.(subs := ps.subs[ps.handles[id].room := id], handles := WithPhase(ps.handles, id, Live))
    else ps
  }

  ghost function PsNext(ps: PubSub, t: PsStep): PubSub {
    match t
    case Spawn(r) => SpawnStep(ps, r)
    case Drop(r) => DropStep(ps, r)
    case Close(id) => CloseStep(ps, id)
    case Store(id) => StoreStep(ps, id)
  }

  ghost function PsExec(run: seq<PsStep>): PubSub {
    if run == [] then EMPTY_PUBSUB else PsNext(PsExec(run[..|run| - 1]), run[|run| - 1])
  }

  /** A goroutine stores once, after it was started, and only an entry that was deleted is closed. */
  ghost predicate PsEnabled(ps: PubSub, t: PsStep) {
    && (t.Store? ==> t.id < |ps.handles| && ps.handles[t.id].phase == Pending)
    && (t.Close? ==> t.id < |ps.handles| && ps.handles[t.id].phase == Closing)
  }

  ghost function CallOf(t: PsStep): seq<Call> {
    match t
    case Spawn(r) => [Subscribe(r)]
    case Drop(r) => [Unsubscribe(r)]
    case _ => []
  }

  /** The broadcaster calls of the hub in a run. */
  ghost function HubCalls(run: seq<PsStep>): seq<Call> {
    if run == [] then [] else HubCalls(run[..|run| - 1]) + CallOf(run[|run| - 1])
  }

  /** Any interleaving of hub calls with the stores of the goroutines they started. */
  ghost predicate IsPsRun(run: seq<PsStep>) {
    run == [] || (IsPsRun(run[..|run| - 1]) && PsEnabled(PsExec(run[..|run| - 1]), run[|run| - 1]))
  }

  ghost function Open(run: seq<PsStep>): set<RoomId> {
    Outstanding(HubCalls(run))
  }

  ghost predicate IsAlive(ps: PubSub, r: RoomId, id: SubId) {
    id < |ps.handles| && ps.handles[id].room == r && (ps.handles[id].phase == Pending || ps.handles[id].phase == Live)
  }

  /** The subscriptions of r that are pending or live. */
  ghost function Alive(ps: PubSub, r: RoomId): set<SubId> {
    set id | 0 <= id < |ps.handles| && IsAlive(ps, r, id)
  }

  ghost function LiveSubs(ps: PubSub, r: RoomId): set<SubId> {
    set id | 0 <= id < |ps.handles| && ps.handles[id] == Handle(r, Live)
  }

  /** Redis delivers to a subscription until it is closed. */
  ghost function Receivers(ps: PubSub, r: RoomId): set<SubId> {
    set id | 0 <= id < |ps.handles| && (ps.handles[id] == Handle(r, Live) || ps.handles[id] == Handle(r, Closing))
  }

  // ---------- The invariant, given the rooms the hub has open ----------

  /** Table entries are live subscriptions of their room. */
  ghost predicate TableLive(ps: PubSub) {
    forall r <- ps.subs :: ps.subs[r] < |ps.handles| && ps.handles[ps.subs[r]] == Handle(r, Live)
  }

  /** An open room still has the subscription its latest opening started. */
  ghost predicate NotDeaf(ps: PubSub, open: set<RoomId>) {
    forall r <- open :: r in ps.latest && IsAlive(ps, r, ps.latest[r])
  }

  /** Every subscription alive is accounted for by an open room or a missed Unsubscribe. */
  ghost predicate Conserved(ps: PubSub, open: set<RoomId>) {
    forall r :: |Alive(ps, r)| == (if r in open then 1 else 0) + ps.missed[r]
  }

  /** A live subscription is in the table, or its room has missed an Unsubscribe. */
  ghost predicate Tabled(ps: PubSub) {
    forall id | 0 <= id < |ps.handles| && ps.handles[id].phase == Live ::
      InTable(ps, ps.handles[id].room, id) || ps.missed[ps.handles[id].room] > 0
  }

  ghost predicate InTable(ps: PubSub, r: RoomId, id: SubId) {
    r in ps.subs && ps.subs[r] == id
  }

  ghost predicate Sound(ps: PubSub, open: set<RoomId>) {
    TableLive(ps) && NotDeaf(ps, open) && Conserved(ps, open) && Tabled(ps)
  }

  lemma SpawnConserves(ps: PubSub, open: set<RoomId>, r: RoomId)
    requires Conserved(ps, open) && r !in open
    ensures Conserved(SpawnStep(ps, r), open + {r})
  {
    var ps' := SpawnStep(ps, r);
    forall q ensures |Alive(ps', q)| == (if q in open + {r} then 1 else 0) + ps'.missed[q] {
      assert Alive(ps', q) == if q == r then Alive(ps, q) + {|ps.handles|} else Alive(ps, q);
    }
  }

  lemma SpawnSound(ps: PubSub, open: set<RoomId>, r: RoomId)
    requires Sound(ps, open) && r !in open
    ensures Sound(SpawnStep(ps, r), open + {r})
  {
    SpawnConserves(ps, open, r);
    var ps' := SpawnStep(ps, r);
    forall q <- open + {r} ensures q in ps'.latest && IsAlive(ps', q, ps'.latest[q]) {
      if q != r { assert IsAlive(ps, q, ps.latest[q]); }
    }
    forall id | 0 <= id < |ps'.handles| && ps'.handles[id].phase == Live
      ensures InTable(ps', ps'.handles[id].room, id) || ps'.missed[ps'.handles[id].room] > 0
    {
      assert InTable(ps, ps.handles[id].room, id) || ps.missed[ps.handles[id].room] > 0;
    }
  }

  lemma DropMissSound(ps: PubSub, open: set<RoomId>, r: RoomId)
    requires Sound(ps, open) && r in open && r !in ps.subs
    ensures Sound(DropStep(ps, r), open - {r})
  {
    forall q ensures Alive(DropStep(ps, r), q) == Alive(ps, q) {}
  }

  lemma DropHitConserves(ps: PubSub, open: set<RoomId>, r: RoomId)
    requires TableLive(ps) && Conserved(ps, open) && r in open && r in ps.subs
    ensures Conserved(DropStep(ps, r), open - {r})
  {
    var ps', id := DropStep(ps, r), ps.subs[r];
    assert id in Alive(ps, r) && ps.handles[id] == Handle(r, Live);
    forall q ensures |Alive(ps', q)| == (if q in open - {r} then 1 else 0) + ps'.missed[q] {
      assert Alive(ps', q) == if q == r then Alive(ps, q) - {id} else Alive(ps, q);
    }
  }

  lemma DropHitSound(ps: PubSub, open: set<RoomId>, r: RoomId)
    requires Sound(ps, open) && r in open && r in ps.subs
    ensures Sound(DropStep(ps, r), open - {r})
  {
    DropHitConserves(ps, open, r);
    var ps', id := DropStep(ps, r), ps.subs[r];
    assert ps.handles[id] == Handle(r, Live);
    forall q <- ps'.subs ensures ps'.subs[q] < |ps'.handles| && ps'.handles[ps'.subs[q]] == Handle(q, Live) {
      assert ps.handles[ps.subs[q]] == Handle(q, Live);
    }
    forall q <- open - {r} ensures q in ps'.latest && IsAlive(ps', q, ps'.latest[q]) {
      assert IsAlive(ps, q, ps.latest[q]);
    }
    forall i | 0 <= i < |ps'.handles| && ps'.handles[i].phase == Live
      ensures InTable(ps', ps'.handles[i].room, i) || ps'.missed[ps'.handles[i].room] > 0
    {
      assert InTable(ps, ps.handles[i].room, i) || ps.missed[ps.handles[i].room] > 0;
    }
  }

  lemma StoreAlive(ps: PubSub, id: SubId)
    requires PsEnabled(ps, Store(id))
    ensures forall q :: Alive(StoreStep(ps, id), q) == Alive(ps, q)
  {
    forall q ensures Alive(StoreStep(ps, id), q) == Alive(ps, q) {}
  }

  lemma StoreSound(ps: PubSub, open: set<RoomId>, id: SubId)
    requires Sound(ps, open) && PsEnabled(ps, Store(id))
    ensures Sound(StoreStep(ps, id), open)
  {
    var r := ps.handles[id].room;
    StoreAlive(ps, id);
    if r in ps.subs {
      TwoAlive(ps, open, r, ps.subs[r], id);
    }
  }

  lemma CloseSound(ps: PubSub, open: set<RoomId>, id: SubId)
    requires Sound(ps, open) && PsEnabled(ps, Close(id))
    ensures Sound(CloseStep(ps, id), open)
  {
    forall q ensures Alive(CloseStep(ps, id), q) == Alive(ps, q) {}
  }

  lemma TwoAlive(ps: PubSub, open: set<RoomId>, r: RoomId, a: SubId, b: SubId)
    requires Conserved(ps, open) && IsAlive(ps, r, a) && IsAlive(ps, r, b) && a != b
    ensures ps.missed[r] > 0
  {
    assert |{a, b}| == 2;
    Fewer({a, b}, Alive(ps, r));
  }

  lemma {:induction false} Fewer(a: set<SubId>, b: set<SubId>)
    requires a <= b
    ensures |a| <= |b|
    decreases a
  {
    if a != {} {
      var x :| x in a;
      Fewer(a - {x}, b - {x});
    }
  }

  lemma PsRunSnoc(run: seq<PsStep>, t: PsStep)
    ensures PsExec(run + [t]) == PsNext(PsExec(run), t)
    ensures HubCalls(run + [t]) == HubCalls(run) + CallOf(t)
    ensures IsPsRun(run + [t]) <==> IsPsRun(run) && PsEnabled(PsExec(run), t)
  {
    assert (run + [t])[..|run|] == run;
  }

  lemma AlternateSnoc(calls: seq<Call>, call: Call)
    requires Alternate(calls + [call])
    ensures Alternate(calls) && Alternates(Outstanding(calls), call)
    ensures Outstanding(calls + [call]) == AfterCall(Outstanding(calls), call)
  {
    assert (calls + [call])[..|calls|] == calls;
  }

  lemma OpenAfter(run: seq<PsStep>, t: PsStep)
    requires Alternate(HubCalls(run + [t]))
    ensures Alternate(HubCalls(run))
    ensures Open(run + [t]) == if t.Spawn? then Open(run) + {t.room}
                               else if t.Drop? then Open(run) - {t.room} else Open(run)
    ensures t.Spawn? ==> t.room !in Open(run)
    ensures t.Drop? ==> t.room in Open(run)
  {
    PsRunSnoc(run, t);
    if t.Store? || t.Close? {
      assert HubCalls(run) + [] == HubCalls(run);
    } else {
      AlternateSnoc(HubCalls(run), CallOf(t)[0]);
    }
  }

  lemma NothingSound()
    ensures Sound(EMPTY_PUBSUB, {})
  {
    forall r ensures Alive(EMPTY_PUBSUB, r) == {} {}
  }

  lemma StepSound(ps: PubSub, open: set<RoomId>, t: PsStep)
    requires Sound(ps, open) && PsEnabled(ps, t) && (t.Spawn? ==> t.room !in open) && (t.Drop? ==> t.room in open)
    ensures Sound(PsNext(ps, t), if t.Spawn? then open + {t.room} else if t.Drop? then open - {t.room} else open)
  {
    match t
    case Spawn(r) => SpawnSound(ps, open, r);
    case Drop(r) => if r in ps.subs { DropHitSound(ps, open, r); } else { DropMissSound(ps, open, r); }
    case Close(id) => CloseSound(ps, open, id);
    case Store(id) => StoreSound(ps, open, id);
  }

  /** Every interleaving keeps the invariant. */
  lemma {:induction false} RunSound(run: seq<PsStep>)
    requires IsPsRun(run) && Alternate(HubCalls(run))
    ensures Sound(PsExec(run), Open(run))
    decreases |run|
  {
    if run != [] {
      var before, t := run[..|run| - 1], run[|run| - 1];
      assert run == before + [t];
      PsRunSnoc(before, t);
      OpenAfter(before, t);
      RunSound(before);
      StepSound(PsExec(before), Open(before), t);
    } else {
      NothingSound();
    }
  }

  // ---------- Theorems ----------

  /** Subscriptions are conserved: a room has one alive while it is open, and one more for each Unsubscribe that came
      before its subscription was stored. */
  lemma SubscriptionsConserved(run: seq<PsStep>, r: RoomId)
    requires IsPsRun(run) && Alternate(HubCalls(run))
    ensures |Alive(PsExec(run), r)| == (if r in Open(run) then 1 else 0) + PsExec(run).missed[r]
  {
    RunSound(run);
  }

  /** A room has exactly the subscription of its latest opening, and a closed room none, if and only if no Unsubscribe
      for the room missed its entry. */
  lemma OneSubscriptionIffNothingMissed(run: seq<PsStep>, r: RoomId)
    requires IsPsRun(run) && Alternate(HubCalls(run))
    ensures var ps := PsExec(run);
            && (r in Open(run) ==> r in ps.latest && IsAlive(ps, r, ps.latest[r]))
            && (ps.missed[r] == 0 <==> Alive(ps, r) == if r in Open(run) then {ps.latest[r]} else {})
  {
    RunSound(run);
    var ps := PsExec(run);
    if ps.missed[r] == 0 && r in Open(run) {
      Only(Alive(ps, r), ps.latest[r]);
    }
  }

  lemma Only(s: set<SubId>, x: SubId)
    requires |s| == 1 && x in s
    ensures s == {x}
  {
    assert |s - {x}| == 0;
  }

  ghost predicate NoPending(ps: PubSub, r: RoomId) {
    forall id | 0 <= id < |ps.handles| :: ps.handles[id] != Handle(r, Pending)
  }

  /** No store and no close is outstanding for r. */
  ghost predicate Settled(ps: PubSub, r: RoomId) {
    NoPending(ps, r) && forall id | 0 <= id < |ps.handles| :: ps.handles[id] != Handle(r, Closing)
  }

  /** When nothing is outstanding, the subscriptions that receive are the live ones: one for the open room and one for
      each Unsubscribe that missed. */
  lemma ReceiversCounted(run: seq<PsStep>, r: RoomId)
    requires IsPsRun(run) && Alternate(HubCalls(run)) && Settled(PsExec(run), r)
    ensures Receivers(PsExec(run), r) == LiveSubs(PsExec(run), r)
    ensures |LiveSubs(PsExec(run), r)| == (if r in Open(run) then 1 else 0) + PsExec(run).missed[r]
  {
    RunSound(run);
    var ps := PsExec(run);
    forall id ensures id in Alive(ps, r) <==> id in LiveSubs(ps, r) {
      if id in Alive(ps, r) { assert ps.handles[id] != Handle(r, Pending); }
    }
    assert Alive(ps, r) == LiveSubs(ps, r);
  }

  /** ... and then, once stored, the table holds exactly the open rooms, with one live subscription each. */
  lemma TableIsOpenRooms(run: seq<PsStep>, r: RoomId)
    requires IsPsRun(run) && Alternate(HubCalls(run))
    requires PsExec(run).missed[r] == 0 && NoPending(PsExec(run), r)
    ensures var ps := PsExec(run);
            && (r in ps.subs <==> r in Open(run))
            && (r in ps.subs ==> r in ps.latest && ps.subs[r] == ps.latest[r] && LiveSubs(ps, r) == {ps.subs[r]})
            && (r !in ps.subs ==> LiveSubs(ps, r) == {})
  {
    RunSound(run);
    OneSubscriptionIffNothingMissed(run, r);
    var ps := PsExec(run);
    forall id ensures id in Alive(ps, r) <==> id in LiveSubs(ps, r) {
      if id in Alive(ps, r) { assert ps.handles[id] != Handle(r, Pending); }
    }
    assert Alive(ps, r) == LiveSubs(ps, r);
    if r in ps.subs { assert ps.subs[r] in LiveSubs(ps, r); }
    if r in Open(run) { assert ps.handles[ps.latest[r]].phase == Live; }
  }

  lemma OneMoreStep(run: seq<PsStep>, t: PsStep, run': seq<PsStep>, ps: PubSub, calls: seq<Call>)
    requires IsPsRun(run) && PsEnabled(PsExec(run), t) && run' == run + [t]
    requires ps == PsNext(PsExec(run), t) && calls == HubCalls(run) + CallOf(t)
    ensures IsPsRun(run') && PsExec(run') == ps && HubCalls(run') == calls
  {
    PsRunSnoc(run, t);
  }

  lemma Reopens(r: RoomId)
    ensures var calls := [Subscribe(r), Unsubscribe(r), Subscribe(r)]; Alternate(calls) && r in Outstanding(calls)
  {
    AppendCall([], Subscribe(r));
    AppendCall([] + [Subscribe(r)], Unsubscribe(r));
    AppendCall([] + [Subscribe(r)] + [Unsubscribe(r)], Subscribe(r));
    assert [Subscribe(r), Unsubscribe(r), Subscribe(r)] == [] + [Subscribe(r)] + [Unsubscribe(r)] + [Subscribe(r)];
  }

  // The states of a room whose first Unsubscribe comes before the store it was meant for.

  ghost function Waiting(r: RoomId): PubSub {
    PubSub(map[], [Handle(r, Pending)], map[r := 0], multiset{})
  }

  ghost function Missed(r: RoomId): PubSub {
    PubSub(map[], [Handle(r, Pending)], map[r := 0], multiset{r})
  }

  ghost function StoredLate(r: RoomId): PubSub {
    PubSub(map[r := 0], [Handle(r, Live)], map[r := 0], multiset{r})
  }

  ghost function Reopened(r: RoomId): PubSub {
    PubSub(map[r := 0], [Handle(r, Live), Handle(r, Pending)], map[r := 1], multiset{r})
  }

  ghost function Doubled(r: RoomId): PubSub {
    PubSub(map[r := 1], [Handle(r, Live), Handle(r, Live)], map[r := 1], multiset{r})
  }

  lemma LateSteps(r: RoomId)
    ensures SpawnStep(EMPTY_PUBSUB, r) == Waiting(r) && DropStep(Waiting(r), r) == Missed(r)
    ensures StoreStep(Missed(r), 0) == StoredLate(r) && SpawnStep(StoredLate(r), r) == Reopened(r)
    ensures StoreStep(Reopened(r), 1) == Doubled(r)
    ensures LiveSubs(Doubled(r), r) == Receivers(Doubled(r), r) == {0, 1} && Settled(Doubled(r), r)
  {}

  lemma StoredLateRun(r: RoomId)
    ensures var run := [Spawn(r), Drop(r), Store(0)];
            IsPsRun(run) && PsExec(run) == StoredLate(r) && HubCalls(run) == [Subscribe(r), Unsubscribe(r)]
  {
    LateSteps(r);
    var calls := [Subscribe(r), Unsubscribe(r)];
    OneMoreStep([], Spawn(r), [Spawn(r)], Waiting(r), [Subscribe(r)]);
    OneMoreStep([Spawn(r)], Drop(r), [Spawn(r), Drop(r)], Missed(r), calls);
    OneMoreStep([Spawn(r), Drop(r)], Store(0), [Spawn(r), Drop(r), Store(0)], StoredLate(r), calls);
  }

  /** Without prompt stores a room can end up with two live subscriptions: the first Unsubscribe comes before the store,
      and the room is reopened. HubPubSub shows what that does to its clients. */
  lemma LateStoreDuplicates(r: RoomId)
    ensures var run := [Spawn(r), Drop(r), Store(0), Spawn(r), Store(1)];
            && IsPsRun(run) && Alternate(HubCalls(run)) && r in Open(run)
            && LiveSubs(PsExec(run), r) == {0, 1} && PsExec(run).missed[r] == 1
  {
    StoredLateRun(r);
    LateSteps(r);
    Reopens(r);
    var run, calls := [Spawn(r), Drop(r), Store(0)], [Subscribe(r), Unsubscribe(r), Subscribe(r)];
    OneMoreStep(run, Spawn(r), [Spawn(r), Drop(r), Store(0), Spawn(r)], Reopened(r), calls);
    OneMoreStep([Spawn(r), Drop(r), Store(0), Spawn(r)], Store(1), [Spawn(r), Drop(r), Store(0), Spawn(r), Store(1)],
                Doubled(r), calls);
  }
}
