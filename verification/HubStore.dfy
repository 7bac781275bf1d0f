/** One server with its store: the hub asks the store when it handles a join, while the statements of all other service
    calls interleave, also between the hub's two questions. */
module HubStore {
  import opened Domain
  import opened Mailboxes
  import opened HubModel
  import opened HubIndex
  import opened HubAnySchedule
  import S = StoreModel
  import T = StoreThreads
  import P = StoreHistory
  import O = StoreOwners

  /** What GetRoom answered the hub, which is in the middle of c's join. */
  datatype Glimpse<C> = Glimpse(c: C, room: RoomId, found: Option<S.Room>)

  datatype Server<C> = Server(hub: HubState<C>, store: T.Store, seen: Option<Glimpse<C>>)

  datatype Act<C> =
    | Runs(m: T.Move)               // a statement of some service call
    | Looks(c: C, room: RoomId)     // the hub takes a join of c and reads the room
    | Handles(e: Event<C>)          // the hub handles an event, or finishes the join

  ghost function Opening<C>(user: map<C, UserId>): Server<C> {
    Server(Fresh(user), T.EMPTY_STORE, None)
  }

  ghost function FoundIn(s: S.Tables, r: RoomId): Option<S.Room> {
    if r in s.rooms then Some(s.rooms[r]) else None
  }

  /** The statement the hub still runs for the join: AddMember, IsMember, or none. */
  ghost function Awaited<C>(g: Glimpse<C>, u: UserId): Option<T.Task> {
    match g.found
    case None => None
    case Some(room) =>
      if room.kind == Public || room.kind == Voice then Some(T.PutJoiner(g.room, u))
      else if room.kind == Private && room.owner == u then None
      else Some(T.CheckJoiner(g.room, u))
  }

  /** What the hub has learnt when it decides about the join. */
  ghost function Answer<C>(s: S.Tables, g: Glimpse<C>, u: UserId): Lookup {
    match g.found
    case None => Missing
    case Some(room) => Found(room.kind, room.owner, S.IsMember(s, g.room, u))
  }

  ghost predicate AsksStore<C>(s: HubState<C>, e: Event<C>) {
    e.req.JoinRoom? && e.req.room !in Joined(s, e.req.c)
  }

  /** The store's part of an act. */
  ghost function Statement<C>(y: Server<C>, act: Act<C>): Option<T.Move> {
    match act
    case Runs(m) => Some(m)
    case Looks(c, r) => Some(T.Start(S.HubJoin(r, UserOf(y.hub, c))))
    case Handles(e) =>
      if AsksStore(y.hub, e) && y.seen.Some? && Awaited(y.seen.value, UserOf(y.hub, e.req.c)).Some?
      then Some(T.Resume(Awaited(y.seen.value, UserOf(y.hub, e.req.c)).value))
      else None
  }

  ghost function After<C>(y: Server<C>, act: Act<C>): Server<C> {
    var store := if Statement(y, act).Some? then T.Next(y.store, Statement(y, act).value) else y.store;
    match act
    case Runs(_) => y.(store := store)
    case Looks(c, r) => y.(store := store, seen := Some(Glimpse(c, r, FoundIn(y.store.tables, r))))
    case Handles(e) => Server(Step(y.hub, e), store, if AsksStore(y.hub, e) then None else y.seen)
  }

  /** The hub's own statement is run by nobody else. */
  ghost predicate LeavesAwaited<C>(y: Server<C>, m: T.Move) {
    m.Resume? && y.seen.Some? && Awaited(y.seen.value, UserOf(y.hub, y.seen.value.c)) == Some(m.task) ==>
      y.store.tasks[m.task] > 1
  }

  /** The hub takes the next event after it has finished the join; only the pumps work on meanwhile. */
  ghost predicate Can<C>(y: Server<C>, act: Act<C>) {
    match act
    case Runs(m) => T.Possible(y.store, m) && LeavesAwaited(y, m)
    case Looks(c, r) => y.seen.None? && c in y.hub.user && r !in Joined(y.hub, c)
    case Handles(e) =>
      && Enabled(y.hub, e)
      && if AsksStore(y.hub, e) then
           && y.seen.Some? && y.seen.value.c == e.req.c && y.seen.value.room == e.req.room
           && e.req.lookup == Answer(y.store.tables, y.seen.value, UserOf(y.hub, e.req.c))
         else y.seen.None? || e.req.WriterTakes? || e.req.ReadError?
  }

  ghost predicate Follows<C>(ys: seq<Server<C>>, acts: seq<Act<C>>, i: nat)
    requires i < |acts| < |ys|
  {
    Can(ys[i], acts[i]) && ys[i + 1] == After(ys[i], acts[i])
  }

  /** A run: the states ys it goes through and the acts between them. */
  ghost predicate IsServerRun<C>(user: map<C, UserId>, ys: seq<Server<C>>, acts: seq<Act<C>>) {
    && |ys| == |acts| + 1 && ys[0] == Opening(user)
    && forall i: nat | i < |acts| :: Follows(ys, acts, i)
  }

  lemma OneMoreAct<C>(user: map<C, UserId>, ys: seq<Server<C>>, acts: seq<Act<C>>, n: nat)
    requires IsServerRun(user, ys, acts) && 0 < n <= |acts|
    ensures Can(ys[n - 1], acts[n - 1]) && ys[n] == After(ys[n - 1], acts[n - 1])
  {
    assert Follows(ys, acts, n - 1);
  }

  // ---------- What every act keeps ----------

  /** The hub's index is sound, and the statement it waits for is ready to run. */
  ghost predicate Sound<C>(user: map<C, UserId>, y: Server<C>) {
    && Index(y.hub) && y.hub.user == user
    && (y.seen.Some? ==>
          var t := Awaited(y.seen.value, UserOf(y.hub, y.seen.value.c));
          t.Some? ==> t.value in y.store.tasks)
  }

  lemma HubKept<C>(y: Server<C>, act: Act<C>)
    requires Index(y.hub) && Can(y, act)
    ensures Index(After(y, act).hub) && After(y, act).hub.user == y.hub.user
  {
    if act.Handles? {
      StepKeepsIndex(y.hub, act.e);
      SameUsers(y.hub, act.e);
    }
  }

  lemma LookStarts<C>(s: S.Tables, g: Glimpse<C>, u: UserId)
    requires g.found == FoundIn(s, g.room) && Awaited(g, u).Some?
    ensures T.Begin(s, S.HubJoin(g.room, u)).1 == T.More(Awaited(g, u).value)
  {}

  lemma AwaitedStays<C>(y: Server<C>, m: T.Move)
    requires y.seen.Some? && Awaited(y.seen.value, UserOf(y.hub, y.seen.value.c)).Some?
    requires Awaited(y.seen.value, UserOf(y.hub, y.seen.value.c)).value in y.store.tasks && LeavesAwaited(y, m)
    ensures Awaited(y.seen.value, UserOf(y.hub, y.seen.value.c)).value in T.Next(y.store, m).tasks
  {}

  lemma LookReady<C>(y: Server<C>, c: C, r: RoomId)
    ensures var g := Glimpse(c, r, FoundIn(y.store.tables, r));
            var t := Awaited(g, UserOf(y.hub, c));
            t.Some? ==> t.value in T.Next(y.store, T.Start(S.HubJoin(r, UserOf(y.hub, c)))).tasks
  {
    var g := Glimpse(c, r, FoundIn(y.store.tables, r));
    if Awaited(g, UserOf(y.hub, c)).Some? { LookStarts(y.store.tables, g, UserOf(y.hub, c)); }
  }

  lemma ActKeepsSound<C>(user: map<C, UserId>, y: Server<C>, act: Act<C>)
    requires Sound(user, y) && Can(y, act)
    ensures Sound(user, After(y, act))
  {
    HubKept(y, act);
    match act
    case Runs(m) =>
      if y.seen.Some? && Awaited(y.seen.value, UserOf(y.hub, y.seen.value.c)).Some? { AwaitedStays(y, m); }
    case Looks(c, r) => LookReady(y, c, r);
    case Handles(e) =>
  }

  lemma {:induction false} RunKeepsSound<C>(user: map<C, UserId>, ys: seq<Server<C>>, acts: seq<Act<C>>, n: nat)
    requires IsServerRun(user, ys, acts) && n <= |acts|
    ensures Sound(user, ys[n])
  {
    if n == 0 {
      assert Index(Fresh(user)) by { RunKeepsIndex(user, []); }
    } else {
      RunKeepsSound(user, ys, acts, n - 1);
      OneMoreAct(user, ys, acts, n);
      ActKeepsSound(user, ys[n - 1], acts[n - 1]);
    }
  }

  // ---------- The store's history inside the run ----------

  lemma StatementRuns<C>(user: map<C, UserId>, y: Server<C>, act: Act<C>)
    requires Sound(user, y) && Can(y, act)
    ensures Statement(y, act).Some? ==>
              T.Possible(y.store, Statement(y, act).value)
              && After(y, act).store == T.Next(y.store, Statement(y, act).value)
    ensures Statement(y, act).None? ==> After(y, act).store == y.store
  {}

  /** at[k] is the place in the history of the statements that the store has reached after k acts. */
  ghost predicate Tracks<C>(ys: seq<Server<C>>, acts: seq<Act<C>>, n: nat, sts: seq<T.Store>, ms: seq<T.Move>,
                            at: seq<nat>)
    requires n <= |acts| < |ys|
  {
    && T.IsHistory(sts, ms) && |at| == n + 1 && at[n] == |ms|
    && (forall k: nat | k <= n :: Reached(ys[k], sts, at, k))
    && (forall k: nat | k < n :: Placed(ys[k], acts[k], ms, at, k))
  }

  ghost predicate Reached<C>(y: Server<C>, sts: seq<T.Store>, at: seq<nat>, k: nat)
    requires k < |at|
  {
    at[k] < |sts| && sts[at[k]] == y.store
  }

  ghost predicate Placed<C>(y: Server<C>, act: Act<C>, ms: seq<T.Move>, at: seq<nat>, k: nat)
    requires k + 1 < |at|
  {
    match Statement(y, act)
    case None => at[k + 1] == at[k]
    case Some(m) => at[k + 1] == at[k] + 1 && at[k] < |ms| && ms[at[k]] == m
  }

  lemma StoreAfter<C>(user: map<C, UserId>, ys: seq<Server<C>>, acts: seq<Act<C>>, n: nat)
    returns (m: Option<T.Move>)
    requires IsServerRun(user, ys, acts) && 0 < n <= |acts|
    ensures m == Statement(ys[n - 1], acts[n - 1])
    ensures m.None? ==> ys[n].store == ys[n - 1].store
    ensures m.Some? ==> T.Possible(ys[n - 1].store, m.value) && ys[n].store == T.Next(ys[n - 1].store, m.value)
  {
    m := Statement(ys[n - 1], acts[n - 1]);
    RunKeepsSound(user, ys, acts, n - 1);
    OneMoreAct(user, ys, acts, n);
    StatementRuns(user, ys[n - 1], acts[n - 1]);
  }

  lemma PlacedStays<C>(y: Server<C>, act: Act<C>, ms: seq<T.Move>, at: seq<nat>, k: nat, ms': seq<T.Move>, last: nat)
    requires k + 1 < |at| && Placed(y, act, ms, at, k) && ms <= ms'
    ensures Placed(y, act, ms', at + [last], k)
  {}

  lemma ReachedStays<C>(y: Server<C>, sts: seq<T.Store>, at: seq<nat>, k: nat, sts': seq<T.Store>, last: nat)
    requires k < |at| && Reached(y, sts, at, k) && sts <= sts'
    ensures Reached(y, sts', at + [last], k)
  {}

  lemma TracksFurther<C>(ys: seq<Server<C>>, acts: seq<Act<C>>, n: nat, sts: seq<T.Store>, ms: seq<T.Move>,
                         at: seq<nat>, sts': seq<T.Store>, ms': seq<T.Move>)
    requires 0 < n <= |acts| < |ys| && Tracks(ys, acts, n - 1, sts, ms, at)
    requires T.IsHistory(sts', ms') && sts <= sts' && ms <= ms' && sts'[|ms'|] == ys[n].store
    requires Placed(ys[n - 1], acts[n - 1], ms', at + [|ms'|], n - 1)
    ensures Tracks(ys, acts, n, sts', ms', at + [|ms'|])
  {
    forall k: nat | k <= n ensures Reached(ys[k], sts', at + [|ms'|], k) {
      if k < n { ReachedStays(ys[k], sts, at, k, sts', |ms'|); }
    }
    forall k: nat | k < n ensures Placed(ys[k], acts[k], ms', at + [|ms'|], k) {
      if k < n - 1 { PlacedStays(ys[k], acts[k], ms, at, k, ms', |ms'|); }
    }
  }

  lemma TracksOneMore<C>(user: map<C, UserId>, ys: seq<Server<C>>, acts: seq<Act<C>>, n: nat, sts: seq<T.Store>,
                         ms: seq<T.Move>, at: seq<nat>)
    returns (sts': seq<T.Store>, ms': seq<T.Move>)
    requires IsServerRun(user, ys, acts) && 0 < n <= |acts| && Tracks(ys, acts, n - 1, sts, ms, at)
    ensures Tracks(ys, acts, n, sts', ms', at + [|ms'|])
  {
    var m := StoreAfter(user, ys, acts, n);
    assert Reached(ys[n - 1], sts, at, n - 1);
    if m.None? {
      sts', ms' := sts, ms;
    } else {
      T.OneMoreMove(sts, ms, m.value, ys[n].store);
      sts', ms' := sts + [ys[n].store], ms + [m.value];
    }
    TracksFurther(ys, acts, n, sts, ms, at, sts', ms');
  }

  lemma {:induction false} AtRises<C>(ys: seq<Server<C>>, acts: seq<Act<C>>, n: nat, sts: seq<T.Store>,
                                      ms: seq<T.Move>, at: seq<nat>, i: nat, k: nat)
    requires n <= |acts| < |ys| && Tracks(ys, acts, n, sts, ms, at) && i <= k <= n
    ensures at[i] <= at[k] <= |ms| && sts[at[k]] == ys[k].store
    decreases k
  {
    assert Reached(ys[k], sts, at, k);
    if i < k {
      AtRises(ys, acts, n, sts, ms, at, i, k - 1);
      assert Placed(ys[k - 1], acts[k - 1], ms, at, k - 1);
    }
  }

  /** The statements of a server run, the hub's included, are a history of the store. */
  lemma {:induction false} StoreIsHistory<C>(user: map<C, UserId>, ys: seq<Server<C>>, acts: seq<Act<C>>, n: nat)
    returns (sts: seq<T.Store>, ms: seq<T.Move>, at: seq<nat>)
    requires IsServerRun(user, ys, acts) && n <= |acts|
    ensures Tracks(ys, acts, n, sts, ms, at)
  {
    if n == 0 {
      sts, ms, at := [T.EMPTY_STORE], [], [0];
    } else {
      sts, ms, at := StoreIsHistory(user, ys, acts, n - 1);
      sts, ms := TracksOneMore(user, ys, acts, n, sts, ms, at);
      at := at + [|ms|];
    }
  }

  lemma StoreLawful<C>(user: map<C, UserId>, ys: seq<Server<C>>, acts: seq<Act<C>>, n: nat)
    requires IsServerRun(user, ys, acts) && n <= |acts|
    ensures P.Lawful(ys[n].store.tables) && P.AllJustified(ys[n].store)
  {
    var sts, ms, at := StoreIsHistory(user, ys, acts, n);
    P.HistoryLawful(sts, ms, |ms|);
    AtRises(ys, acts, n, sts, ms, at, n, n);
  }

  lemma StoreEvolves<C>(user: map<C, UserId>, ys: seq<Server<C>>, acts: seq<Act<C>>, m: nat, n: nat)
    requires IsServerRun(user, ys, acts) && m <= n <= |acts|
    ensures P.Evolves(ys[m].store.tables, ys[n].store.tables)
  {
    var sts, ms, at := StoreIsHistory(user, ys, acts, n);
    AtRises(ys, acts, n, sts, ms, at, m, n);
    AtRises(ys, acts, n, sts, ms, at, m, m);
    P.HistoryEvolves(sts, ms, at[m], at[n]);
  }

  // ---------- Who got into a room ----------

  ghost predicate IsJoin<C>(act: Act<C>, c: C, r: RoomId, lookup: Lookup) {
    act.Handles? && act.e.req == JoinRoom(c, r, lookup)
  }

  /** An act that brings c into room r finishes its join, with an answer that admits it. */
  lemma Enters<C>(user: map<C, UserId>, y: Server<C>, act: Act<C>, h: HubState<C>, c: C, r: RoomId)
    requires Sound(user, y) && Can(y, act) && c in user && h == if act.Handles? then Step(y.hub, act.e) else y.hub
    requires c !in InRoom(y.hub.rooms, r) && c in InRoom(h.rooms, r)
    ensures y.seen.Some? && y.seen.value.c == c && y.seen.value.room == r
    ensures IsJoin(act, c, r, Answer(y.store.tables, y.seen.value, user[c]))
    ensures MayEnter(Answer(y.store.tables, y.seen.value, user[c]), user[c])
  {
    EntersHub(y.hub, act.e, c, r);
  }

  lemma OnlyHandlesMoves<C>(y: Server<C>, act: Act<C>)
    ensures After(y, act).hub == if act.Handles? then Step(y.hub, act.e) else y.hub
  {}

  lemma EntersHub<C>(s: HubState<C>, e: Event<C>, c: C, r: RoomId)
    requires Index(s) && Enabled(s, e) && c in s.user
    requires c !in InRoom(s.rooms, r) && c in InRoom(Step(s, e).rooms, r)
    ensures e.req.JoinRoom? && e.req.c == c && e.req.room == r && AsksStore(s, e)
    ensures MayEnter(e.req.lookup, UserOf(s, c))
  {
    RoomsExactly(s, e, c, r);
    MembershipByJoined(s, c, r);
  }

  /** The look behind a glimpse. */
  lemma {:induction false} GlimpseOrigin<C>(user: map<C, UserId>, ys: seq<Server<C>>, acts: seq<Act<C>>, n: nat)
    returns (i: nat)
    requires IsServerRun(user, ys, acts) && n <= |acts| && ys[n].seen.Some?
    ensures i < n && acts[i] == Looks(ys[n].seen.value.c, ys[n].seen.value.room)
    ensures ys[n].seen.value.found == FoundIn(ys[i].store.tables, ys[n].seen.value.room)
  {
    OneMoreAct(user, ys, acts, n);
    if acts[n - 1].Looks? { i := n - 1; } else { i := GlimpseOrigin(user, ys, acts, n - 1); }
  }

  ghost predicate StaysIn<C>(ys: seq<Server<C>>, m: nat, n: nat, c: C, r: RoomId)
    requires n < |ys|
  {
    forall k: nat | m < k <= n :: c in InRoom(ys[k].hub.rooms, r)
  }

  /** Every client of a room is there since a join that was admitted on what the store said: on the room as it was at
      the look, act i, and the membership as it was at the end of the join, act j. */
  lemma {:induction false} RoomOrigin<C>(user: map<C, UserId>, ys: seq<Server<C>>, acts: seq<Act<C>>, n: nat, c: C,
                                         r: RoomId)
    returns (i: nat, j: nat)
    requires IsServerRun(user, ys, acts) && n <= |acts| && c in user && c in InRoom(ys[n].hub.rooms, r)
    ensures i < j < n && acts[i] == Looks(c, r) && StaysIn(ys, j, n, c, r)
    ensures var lookup := Answer(ys[j].store.tables, Glimpse(c, r, FoundIn(ys[i].store.tables, r)), user[c]);
            IsJoin(acts[j], c, r, lookup) && MayEnter(lookup, user[c])
  {
    assert n > 0;
    if c in InRoom(ys[n - 1].hub.rooms, r) {
      i, j := RoomOrigin(user, ys, acts, n - 1, c, r);
    } else {
      i := Entry(user, ys, acts, n, c, r);
      j := n - 1;
    }
  }

  lemma EntryAct<C>(user: map<C, UserId>, ys: seq<Server<C>>, acts: seq<Act<C>>, n: nat, c: C, r: RoomId)
    returns (g: Glimpse<C>)
    requires IsServerRun(user, ys, acts) && 0 < n <= |acts| && c in user
    requires c !in InRoom(ys[n - 1].hub.rooms, r) && c in InRoom(ys[n].hub.rooms, r)
    ensures ys[n - 1].seen == Some(g) && g.c == c && g.room == r
    ensures IsJoin(acts[n - 1], c, r, Answer(ys[n - 1].store.tables, g, user[c]))
    ensures MayEnter(Answer(ys[n - 1].store.tables, g, user[c]), user[c])
  {
    var y, act := ActTaken(user, ys, acts, n);
    Enters(user, y, act, ys[n].hub, c, r);
    g := y.seen.value;
  }

  /** The n-th act and what it does to the hub. */
  lemma ActTaken<C>(user: map<C, UserId>, ys: seq<Server<C>>, acts: seq<Act<C>>, n: nat)
    returns (y: Server<C>, act: Act<C>)
    requires IsServerRun(user, ys, acts) && 0 < n <= |acts|
    ensures y == ys[n - 1] && act == acts[n - 1] && Sound(user, y) && Can(y, act)
    ensures ys[n].hub == if act.Handles? then Step(y.hub, act.e) else y.hub
  {
    y, act := ys[n - 1], acts[n - 1];
    RunKeepsSound(user, ys, acts, n - 1);
    OneMoreAct(user, ys, acts, n);
    OnlyHandlesMoves(y, act);
  }

  lemma Entry<C>(user: map<C, UserId>, ys: seq<Server<C>>, acts: seq<Act<C>>, n: nat, c: C, r: RoomId) returns (i: nat)
    requires IsServerRun(user, ys, acts) && 0 < n <= |acts| && c in user
    requires c !in InRoom(ys[n - 1].hub.rooms, r) && c in InRoom(ys[n].hub.rooms, r)
    ensures i < n - 1 && acts[i] == Looks(c, r)
    ensures var lookup := Answer(ys[n - 1].store.tables, Glimpse(c, r, FoundIn(ys[i].store.tables, r)), user[c]);
            IsJoin(acts[n - 1], c, r, lookup) && MayEnter(lookup, user[c])
  {
    var g := EntryAct(user, ys, acts, n, c, r);
    i := GlimpseOrigin(user, ys, acts, n - 1);
    assert g == Glimpse(c, r, FoundIn(ys[i].store.tables, r));
  }

  // ---------- Private rooms ----------

  /** u is the owner or a member of r. */
  ghost predicate Belongs(s: S.Tables, r: RoomId, u: UserId) {
    r in s.rooms && (s.rooms[r].owner == u || (r, u) in s.members)
  }

  ghost predicate IsPrivate(s: S.Tables, r: RoomId) {
    r in s.rooms && s.rooms[r].kind == Private
  }

  /** While it exists, a private room was always private and had the same owner. */
  lemma SameRoom<C>(user: map<C, UserId>, ys: seq<Server<C>>, acts: seq<Act<C>>, m: nat, n: nat, r: RoomId)
    requires IsServerRun(user, ys, acts) && m <= n <= |acts|
    requires r in ys[m].store.tables.used && r in ys[n].store.tables.rooms
    ensures r in ys[m].store.tables.rooms
    ensures ys[m].store.tables.rooms[r].kind == ys[n].store.tables.rooms[r].kind
    ensures ys[m].store.tables.rooms[r].owner == ys[n].store.tables.rooms[r].owner
  {
    StoreEvolves(user, ys, acts, m, n);
  }

  lemma UsedStays<C>(user: map<C, UserId>, ys: seq<Server<C>>, acts: seq<Act<C>>, m: nat, n: nat, r: RoomId)
    requires IsServerRun(user, ys, acts) && m <= n <= |acts| && r in ys[m].store.tables.rooms
    ensures r in ys[n].store.tables.used
  {
    StoreLawful(user, ys, acts, m);
    StoreEvolves(user, ys, acts, m, n);
  }

  /** Whoever the hub has in a private room belonged to it when the hub let them in, and has been there ever since. */
  lemma PrivateClientsBelonged<C>(user: map<C, UserId>, ys: seq<Server<C>>, acts: seq<Act<C>>, n: nat, c: C, r: RoomId)
    returns (j: nat, lookup: Lookup)
    requires IsServerRun(user, ys, acts) && n <= |acts| && c in user
    requires c in InRoom(ys[n].hub.rooms, r) && IsPrivate(ys[n].store.tables, r)
    ensures j < n && IsJoin(acts[j], c, r, lookup) && StaysIn(ys, j, n, c, r)
    ensures IsPrivate(ys[j].store.tables, r) && Belongs(ys[j].store.tables, r, user[c])
  {
    var i, k := RoomOrigin(user, ys, acts, n, c, r);
    j, lookup := k, Answer(ys[k].store.tables, Glimpse(c, r, FoundIn(ys[i].store.tables, r)), user[c]);
    assert r in ys[i].store.tables.rooms;
    UsedStays(user, ys, acts, i, j, r);
    UsedStays(user, ys, acts, i, i, r);
    SameRoom(user, ys, acts, j, n, r);
    SameRoom(user, ys, acts, i, n, r);
  }

  /** ... hence a chain of accepted invites led from their user to the owner then. */
  lemma PrivateClientsTraceToOwner<C>(user: map<C, UserId>, ys: seq<Server<C>>, acts: seq<Act<C>>, j: nat, r: RoomId,
                                      u: UserId)
    returns (sts: seq<T.Store>, ms: seq<T.Move>, path: seq<UserId>, via: seq<S.InviteId>, at: seq<nat>)
    requires IsServerRun(user, ys, acts) && j <= |acts|
    requires IsPrivate(ys[j].store.tables, r) && Belongs(ys[j].store.tables, r, u)
    ensures T.IsHistory(sts, ms) && sts[|ms|] == ys[j].store
    ensures P.IsChain(sts, ms, |ms|, r, path, via, at) && path[0] == u
  {
    var places;
    sts, ms, places := StoreIsHistory(user, ys, acts, j);
    AtRises(ys, acts, j, sts, ms, places, j, j);
    if ys[j].store.tables.rooms[r].owner == u {
      path, via, at := [u], [], [];
    } else {
      path, via, at := P.MembersTraceToOwner(sts, ms, |ms|, r, u);
    }
  }

  // ---------- Entering ----------

  /** What entering a room leaves in the tables: the member role in a public or voice room, whatever the user was
      before; membership in a DM; membership or ownership in a private room. */
  ghost predicate EntryRow(s: S.Tables, r: RoomId, u: UserId)
    requires r in s.rooms
  {
    match s.rooms[r].kind
    case Public => (r, u) in s.members && s.members[(r, u)] == S.Member
    case Voice => (r, u) in s.members && s.members[(r, u)] == S.Member
    case DM => (r, u) in s.members
    case Private => (r, u) in s.members || s.rooms[r].owner == u
  }

  /** What the statement that ends a join does to the tables. */
  lemma JoinEnds<C>(y: Server<C>, e: Event<C>, g: Glimpse<C>, u: UserId)
    requires y.seen == Some(g) && AsksStore(y.hub, e) && UserOf(y.hub, e.req.c) == u
    ensures After(y, Handles(e)).store.tables
         == if Awaited(g, u).None? then y.store.tables else T.Continue(y.store.tables, Awaited(g, u).value).0
  {}

  lemma AwaitedWrites<C>(s: S.Tables, g: Glimpse<C>, u: UserId)
    requires g.found.Some? && Awaited(g, u).Some?
    ensures T.Continue(s, Awaited(g, u).value).0
         == if (g.found.value.kind == Public || g.found.value.kind == Voice) && g.room in s.rooms
            then S.PutMember(s, g.room, u, S.Member) else s
  {}

  lemma AdmittedRow<C>(s: S.Tables, s': S.Tables, g: Glimpse<C>, u: UserId)
    requires g.found.Some? && MayEnter(Answer(s, g, u), u) && g.room in s.rooms
    requires s.rooms[g.room].kind == g.found.value.kind && s.rooms[g.room].owner == g.found.value.owner
    requires s' == if g.found.value.kind == Public || g.found.value.kind == Voice
                   then S.PutMember(s, g.room, u, S.Member) else s
    ensures EntryRow(s', g.room, u)
  {}

  /** The statement that ends an admitted join leaves the row. */
  lemma JoinLeavesRow<C>(y: Server<C>, e: Event<C>, g: Glimpse<C>, u: UserId, s': S.Tables)
    requires y.seen == Some(g) && g.found.Some? && AsksStore(y.hub, e) && UserOf(y.hub, e.req.c) == u
    requires MayEnter(Answer(y.store.tables, g, u), u) && s' == After(y, Handles(e)).store.tables
    requires g.room in s'.rooms && s'.rooms[g.room].kind == g.found.value.kind
             && s'.rooms[g.room].owner == g.found.value.owner
    ensures EntryRow(s', g.room, u)
  {
    var s := y.store.tables;
    JoinEnds(y, e, g, u);
    if Awaited(g, u).Some? { AwaitedWrites(s, g, u); }
    AdmittedRow(s, s', g, u);
  }

  /** Whenever a client enters a room that is there, its user has just got, or already had, the row it takes. */
  lemma EntrantHasRow<C>(user: map<C, UserId>, ys: seq<Server<C>>, acts: seq<Act<C>>, n: nat, c: C, r: RoomId)
    requires IsServerRun(user, ys, acts) && 0 < n <= |acts| && c in user && r in ys[n].store.tables.rooms
    requires c !in InRoom(ys[n - 1].hub.rooms, r) && c in InRoom(ys[n].hub.rooms, r)
    ensures EntryRow(ys[n].store.tables, r, user[c])
  {
    var g := EntryAct(user, ys, acts, n, c, r);
    var k := GlimpseOrigin(user, ys, acts, n - 1);
    assert g.found == FoundIn(ys[k].store.tables, r);
    UsedStays(user, ys, acts, k, k, r);
    SameRoom(user, ys, acts, k, n, r);
    var y, act := ActTaken(user, ys, acts, n);
    OneMoreAct(user, ys, acts, n);
    JoinLeavesRow(y, act.e, g, user[c], ys[n].store.tables);
  }

  ghost predicate Kicks<C>(act: Act<C>, r: RoomId, u: UserId) {
    act == Runs(T.Resume(T.RemoveTarget(r, u)))
  }

  lemma BeginKeepsRow(s: S.Tables, q: S.Request, k: (RoomId, UserId))
    requires k in s.members && k.0 in T.Begin(s, q).0.rooms
    ensures k in T.Begin(s, q).0.members
  {
    if !q.Create? && !q.Delete? { assert T.Begin(s, q).0 == s; }
  }

  lemma ContinueKeepsRow(s: S.Tables, t: T.Task, k: (RoomId, UserId))
    requires k in s.members
    ensures k in T.Continue(s, t).0.members <==> t != T.RemoveTarget(k.0, k.1)
  {
    if O.KeepsMembers(t) { O.MembersKept(s, t); } else { WriterKeepsRow(s, t, k); }
  }

  lemma WriterKeepsRow(s: S.Tables, t: T.Task, k: (RoomId, UserId))
    requires k in s.members && !O.KeepsMembers(t)
    ensures k in T.Continue(s, t).0.members <==> t != T.RemoveTarget(k.0, k.1)
  {}

  /** A member row goes only with its room or by the last statement of a kick. */
  lemma MemberStays(st: T.Store, m: T.Move, r: RoomId, u: UserId)
    requires (r, u) in st.tables.members && r in T.Next(st, m).tables.rooms
    ensures (r, u) in T.Next(st, m).tables.members <==> m != T.Resume(T.RemoveTarget(r, u))
  {
    if m.Start? { BeginKeepsRow(st.tables, m.q, (r, u)); } else { ContinueKeepsRow(st.tables, m.task, (r, u)); }
  }

  lemma RowStays<C>(user: map<C, UserId>, ys: seq<Server<C>>, acts: seq<Act<C>>, n: nat, r: RoomId, u: UserId)
    requires IsServerRun(user, ys, acts) && 0 < n <= |acts|
    requires r in ys[n - 1].store.tables.rooms && r in ys[n].store.tables.rooms
    requires (r, u) in ys[n - 1].store.tables.members
    ensures (r, u) in ys[n].store.tables.members <==> !Kicks(acts[n - 1], r, u)
  {
    var m := StoreAfter(user, ys, acts, n);
    if m.Some? { MemberStays(ys[n - 1].store, m.value, r, u); }
  }

  /** A non-owner removed from a private room never gets back in. */
  lemma GoneForGood<C>(user: map<C, UserId>, ys: seq<Server<C>>, acts: seq<Act<C>>, j: nat, k: nat, n: nat, r: RoomId,
                       u: UserId)
    requires IsServerRun(user, ys, acts) && j <= k <= n <= |acts|
    requires IsPrivate(ys[j].store.tables, r) && ys[j].store.tables.rooms[r].owner != u
    requires (r, u) in ys[j].store.tables.members && (r, u) !in ys[k].store.tables.members
    ensures (r, u) !in ys[n].store.tables.members
  {
    var sts, ms, at := StoreIsHistory(user, ys, acts, n);
    AtRises(ys, acts, n, sts, ms, at, j, j);
    AtRises(ys, acts, n, sts, ms, at, j, k);
    AtRises(ys, acts, n, sts, ms, at, k, n);
    P.RemovedNeverReturns(sts, ms, at[j], at[k], at[n], r, u);
  }

  ghost predicate KickedBetween<C>(acts: seq<Act<C>>, m: nat, n: nat, r: RoomId, u: UserId)
    requires n <= |acts|
  {
    exists k :: m <= k < n && Kicks(acts[k], r, u)
  }

  lemma {:induction false} RowIff<C>(user: map<C, UserId>, ys: seq<Server<C>>, acts: seq<Act<C>>, j: nat, n: nat,
                                     r: RoomId, u: UserId)
    requires IsServerRun(user, ys, acts) && j <= n <= |acts|
    requires IsPrivate(ys[j].store.tables, r) && ys[j].store.tables.rooms[r].owner != u
    requires (r, u) in ys[j].store.tables.members && r in ys[n].store.tables.rooms
    ensures (r, u) in ys[n].store.tables.members <==> !KickedBetween(acts, j, n, r, u)
    decreases n
  {
    if j < n {
      UsedStays(user, ys, acts, j, n - 1, r);
      SameRoom(user, ys, acts, n - 1, n, r);
      RowIff(user, ys, acts, j, n - 1, r, u);
      if (r, u) in ys[n - 1].store.tables.members {
        RowStays(user, ys, acts, n, r, u);
      } else {
        GoneForGood(user, ys, acts, j, n - 1, n, r, u);
      }
      KickedOneMore(acts, j, n, r, u);
    }
  }

  lemma KickedOneMore<C>(acts: seq<Act<C>>, j: nat, n: nat, r: RoomId, u: UserId)
    requires j < n <= |acts|
    ensures KickedBetween(acts, j, n, r, u) <==> KickedBetween(acts, j, n - 1, r, u) || Kicks(acts[n - 1], r, u)
  {}

  /** The hub never takes the membership back. While a client stays in a private room that is still there, its user
      belongs to the room exactly if it is the owner or no kick of it has run since it was let in, by act j. */
  lemma StillBelongsIff<C>(user: map<C, UserId>, ys: seq<Server<C>>, acts: seq<Act<C>>, n: nat, c: C, r: RoomId)
    returns (j: nat, lookup: Lookup)
    requires IsServerRun(user, ys, acts) && n <= |acts| && c in user
    requires c in InRoom(ys[n].hub.rooms, r) && IsPrivate(ys[n].store.tables, r)
    ensures j < n && IsJoin(acts[j], c, r, lookup) && StaysIn(ys, j, n, c, r)
    ensures Belongs(ys[n].store.tables, r, user[c])
       <==> ys[n].store.tables.rooms[r].owner == user[c] || !KickedBetween(acts, j, n, r, user[c])
  {
    j, lookup := PrivateClientsBelonged(user, ys, acts, n, c, r);
    UsedStays(user, ys, acts, j, j, r);
    SameRoom(user, ys, acts, j, n, r);
    if ys[n].store.tables.rooms[r].owner != user[c] { RowIff(user, ys, acts, j, n, r, user[c]); }
  }

  // ---------- Runs ----------

  lemma Extended<C>(user: map<C, UserId>, ys: seq<Server<C>>, acts: seq<Act<C>>, act: Act<C>, y: Server<C>)
    requires IsServerRun(user, ys, acts) && Can(ys[|acts|], act) && y == After(ys[|acts|], act)
    ensures IsServerRun(user, ys + [y], acts + [act])
  {
    var ys', acts' := ys + [y], acts + [act];
    forall i: nat | i < |acts'| ensures Follows(ys', acts', i) {
      if i < |acts| {
        assert Follows(ys, acts, i);
        assert ys'[i] == ys[i] && ys'[i + 1] == ys[i + 1] && acts'[i] == acts[i];
      }
    }
  }

  lemma StatementExtends<C>(user: map<C, UserId>, ys: seq<Server<C>>, acts: seq<Act<C>>, m: T.Move, y: Server<C>)
    requires IsServerRun(user, ys, acts) && T.Possible(ys[|acts|].store, m)
    requires m.Resume? ==> !m.task.PutJoiner? && !m.task.CheckJoiner?
    requires y == ys[|acts|].(store := T.Next(ys[|acts|].store, m))
    ensures IsServerRun(user, ys + [y], acts + [Runs(m)])
  {
    Extended(user, ys, acts, Runs(m), y);
  }

  lemma KickStarts(st: T.Store, r: RoomId, o: UserId, u: UserId)
    requires (r, o) in st.tables.members && st.tables.members[(r, o)] == S.Owner && o != u
    ensures T.Next(st, T.Start(S.KickMember(r, o, u)))
         == T.Store(st.tables, st.tasks + multiset{T.CheckTarget(r, S.Owner, u)})
  {}

  lemma KickChecks(st: T.Store, r: RoomId, u: UserId)
    requires (r, u) in st.tables.members
    ensures T.Next(st, T.Resume(T.CheckTarget(r, S.Owner, u)))
         == T.Store(st.tables, st.tasks - multiset{T.CheckTarget(r, S.Owner, u)} + multiset{T.RemoveTarget(r, u)})
  {}

  /** A kick by somebody with the owner role, run alone. */
  lemma KickRuns(st: T.Store, r: RoomId, o: UserId, u: UserId) returns (st1: T.Store, st2: T.Store, st3: T.Store)
    requires (r, o) in st.tables.members && st.tables.members[(r, o)] == S.Owner && o != u
    requires (r, u) in st.tables.members
    ensures T.Possible(st, T.Start(S.KickMember(r, o, u))) && st1 == T.Next(st, T.Start(S.KickMember(r, o, u)))
    ensures T.Possible(st1, T.Resume(T.CheckTarget(r, S.Owner, u)))
    ensures st2 == T.Next(st1, T.Resume(T.CheckTarget(r, S.Owner, u)))
    ensures T.Possible(st2, T.Resume(T.RemoveTarget(r, u))) && st3 == T.Next(st2, T.Resume(T.RemoveTarget(r, u)))
    ensures st3.tables == st.tables.(members := st.tables.members - {(r, u)})
  {
    KickStarts(st, r, o, u);
    st1 := T.Store(st.tables, st.tasks + multiset{T.CheckTarget(r, S.Owner, u)});
    KickChecks(st1, r, u);
    st2 := T.Store(st.tables, st1.tasks - multiset{T.CheckTarget(r, S.Owner, u)} + multiset{T.RemoveTarget(r, u)});
    st3 := T.Next(st2, T.Resume(T.RemoveTarget(r, u)));
  }

  /** Whatever happened before: a user kicked by the owner while a client of theirs is in the room keeps that client
      there, and the next message to the room is offered to it. */
  lemma KickedStillHears<C>(user: map<C, UserId>, ys: seq<Server<C>>, acts: seq<Act<C>>, c: C, r: RoomId, o: UserId,
                            e: Event<C>, data: nat)
    returns (ys': seq<Server<C>>, acts': seq<Act<C>>)
    requires IsServerRun(user, ys, acts) && c in user && o != user[c] && e.req == Broadcast(r, data)
    requires var y := ys[|acts|];
             && c in InRoom(y.hub.rooms, r) && r in y.store.tables.rooms && y.store.tables.rooms[r].owner != user[c]
             && (r, o) in y.store.tables.members && y.store.tables.members[(r, o)] == S.Owner
             && (r, user[c]) in y.store.tables.members
    ensures IsServerRun(user, ys', acts') && |acts'| == |acts| + 3 && Kicks(acts'[|acts| + 2], r, user[c])
    ensures var y, s := ys'[|acts'|], ys[|acts|].store.tables;
            && y.store.tables == s.(members := s.members - {(r, user[c])}) && !Belongs(y.store.tables, r, user[c])
            && c in InRoom(y.hub.rooms, r) && Mail(y.hub, e, c) == [Payload(r, data)]
  {
    var y := ys[|acts|];
    var st1, st2, st3 := KickRuns(y.store, r, o, user[c]);
    var m1, m2 := T.Start(S.KickMember(r, o, user[c])), T.Resume(T.CheckTarget(r, S.Owner, user[c]));
    var m3 := T.Resume(T.RemoveTarget(r, user[c]));
    StatementExtends(user, ys, acts, m1, y.(store := st1));
    var ys1, acts1 := ys + [y.(store := st1)], acts + [Runs(m1)];
    StatementExtends(user, ys1, acts1, m2, y.(store := st2));
    var ys2, acts2 := ys1 + [y.(store := st2)], acts1 + [Runs(m2)];
    StatementExtends(user, ys2, acts2, m3, y.(store := st3));
    ys', acts' := ys2 + [y.(store := st3)], acts2 + [Runs(m3)];
  }

  /** Conversely every history of the store is that of a server whose hub is idle. */
  lemma {:induction false} IdleHub<C>(user: map<C, UserId>, sts: seq<T.Store>, ms: seq<T.Move>)
    returns (ys: seq<Server<C>>, acts: seq<Act<C>>)
    requires T.IsHistory(sts, ms)
    ensures IsServerRun(user, ys, acts) && |acts| == |ms| && ys[|acts|] == Server(Fresh(user), sts[|ms|], None)
    decreases |ms|
  {
    if ms == [] {
      ys, acts := [Opening(user)], [];
    } else {
      var n := |ms| - 1;
      assert sts[..n + 1][0] == sts[0];
      forall i | 0 <= i < n
        ensures T.Possible(sts[..n + 1][i], ms[..n][i]) && sts[..n + 1][i + 1] == T.Next(sts[..n + 1][i], ms[..n][i]) {
        assert ms[..n][i] == ms[i];
      }
      ys, acts := IdleHub(user, sts[..n + 1], ms[..n]);
      assert T.Possible(sts[n], ms[n]) && sts[n + 1] == T.Next(sts[n], ms[n]);
      Extended(user, ys, acts, Runs(ms[n]), Server(Fresh(user), sts[n + 1], None));
      ys, acts := ys + [Server(Fresh(user), sts[n + 1], None)], acts + [Runs(ms[n])];
    }
  }
}
