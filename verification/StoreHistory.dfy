/** What every history keeps, however the statements of concurrent calls interleave. */
module StoreHistory {
  import opened Domain
  import opened StoreModel
  import opened StoreThreads

  // ---------- Invariants ----------

  /** Foreign keys. */
  ghost predicate Referenced(s: Tables) {
    && s.rooms.Keys <= s.used
    && s.invites.Keys <= s.usedInvites
    && (forall k <- s.members :: k.0 in s.rooms)
    && (forall i <- s.invites :: s.invites[i].room in s.rooms && s.rooms[s.invites[i].room].kind == Private)
  }

  /** UNIQUE (room_id, invitee_id) */
  ghost predicate OneInviteEach(s: Tables) {
    forall i, j | i in s.invites && j in s.invites && i != j ::
      s.invites[i].room != s.invites[j].room || s.invites[i].invitee != s.invites[j].invitee
  }

  /** Only the room's owner holds the owner role. */
  ghost predicate OwnersGenuine(s: Tables) {
    forall k <- s.members | s.members[k] == Owner :: k.0 in s.rooms && s.rooms[k.0].owner == k.1
  }

  ghost predicate HasAccepted(s: Tables, i: InviteId, r: RoomId, u: UserId) {
    i in s.invites && s.invites[i].room == r && s.invites[i].invitee == u && s.invites[i].status == Accepted
  }

  /** u is the owner of r, or accepted an invite to it created before `before`. */
  ghost predicate Entitled(s: Tables, r: RoomId, u: UserId, before: nat) {
    r in s.rooms && (s.rooms[r].owner == u || exists i :: HasAccepted(s, i, r, u) && s.invites[i].at < before)
  }

  ghost predicate MembersEntitled(s: Tables) {
    forall k <- s.members | k.0 in s.rooms && s.rooms[k.0].kind == Private :: Entitled(s, k.0, k.1, s.clock)
  }

  ghost predicate InvitersEntitled(s: Tables) {
    forall i <- s.invites :: s.invites[i].at < s.clock
        && Entitled(s, s.invites[i].room, s.invites[i].inviter, s.invites[i].at)
  }

  ghost predicate Lawful(s: Tables) {
    Referenced(s) && OneInviteEach(s) && OwnersGenuine(s) && MembersEntitled(s) && InvitersEntitled(s)
  }

  lemma InsertRoomLawful(s: Tables, id: RoomId, room: Room)
    requires Lawful(s) && id !in s.used
    ensures Lawful(InsertRoom(s, id, room))
  {
    var s' := InsertRoom(s, id, room);
    forall r, u, t | Entitled(s, r, u, t) ensures Entitled(s', r, u, t) { SameEntitled(s, s', r, u, t); }
  }

  /** Entitlement survives while the room and its accepted invites do. */
  lemma SameEntitled(s: Tables, s': Tables, r: RoomId, u: UserId, t: nat)
    requires Entitled(s, r, u, t) && r in s'.rooms && s'.rooms[r].owner == s.rooms[r].owner
    requires forall i | HasAccepted(s, i, r, u) :: i in s'.invites && s'.invites[i] == s.invites[i]
    ensures Entitled(s', r, u, t)
  {
    if s.rooms[r].owner != u {
      var i :| HasAccepted(s, i, r, u) && s.invites[i].at < t;
      assert HasAccepted(s', i, r, u);
    }
  }

  /** A member row may be written for the owner with any role, and for somebody entitled with a lesser role. */
  lemma PutMemberLawful(s: Tables, r: RoomId, u: UserId, role: Role)
    requires Lawful(s) && r in s.rooms
    requires role == Owner ==> s.rooms[r].owner == u
    requires s.rooms[r].kind == Private ==> Entitled(s, r, u, s.clock)
    ensures Lawful(PutMember(s, r, u, role))
  {
    var s' := PutMember(s, r, u, role);
    forall q, v, t | Entitled(s, q, v, t) ensures Entitled(s', q, v, t) { SameEntitled(s, s', q, v, t); }
  }

  lemma RemoveMemberLawful(s: Tables, k: (RoomId, UserId))
    requires Lawful(s)
    ensures Lawful(s.(members := s.members - {k}))
  {
    var s' := s.(members := s.members - {k});
    forall q, v, t | Entitled(s, q, v, t) ensures Entitled(s', q, v, t) { SameEntitled(s, s', q, v, t); }
  }

  lemma RemoveRoomLawful(s: Tables, id: RoomId)
    requires Lawful(s)
    ensures Lawful(RemoveRoom(s, id))
  {
    var s' := RemoveRoom(s, id);
    forall q, v, t | Entitled(s, q, v, t) && q != id ensures Entitled(s', q, v, t) { SameEntitled(s, s', q, v, t); }
  }

  lemma RenameLawful(s: Tables, r: RoomId, name: string)
    requires Lawful(s) && r in s.rooms
    ensures Lawful(s.(rooms := s.rooms[r := s.rooms[r].(name := name)]))
  {
    var s' := s.(rooms := s.rooms[r := s.rooms[r].(name := name)]);
    forall q, v, t | Entitled(s, q, v, t) ensures Entitled(s', q, v, t) { SameEntitled(s, s', q, v, t); }
  }

  lemma InsertInviteLawful(s: Tables, id: InviteId, r: RoomId, inviter: UserId, invitee: UserId)
    requires Lawful(s) && id !in s.usedInvites && r in s.rooms && s.rooms[r].kind == Private
    requires !Invited(s, r, invitee) && Entitled(s, r, inviter, s.clock)
    ensures Lawful(InsertInvite(s, id, r, inviter, invitee))
  {
    var s' := InsertInvite(s, id, r, inviter, invitee);
    forall q, v, t | Entitled(s, q, v, t) ensures Entitled(s', q, v, t) { SameEntitled(s, s', q, v, t); }
    forall k <- s'.members | k.0 in s'.rooms && s'.rooms[k.0].kind == Private ensures Entitled(s', k.0, k.1, s'.clock) {
      assert Entitled(s', k.0, k.1, s.clock);
    }
  }

  lemma SetStatusLawful(s: Tables, id: InviteId, status: Status)
    requires Lawful(s) && id in s.invites && s.invites[id].status == Pending
    ensures Lawful(SetStatus(s, id, status))
  {
    var s' := SetStatus(s, id, status);
    forall q, v, t | Entitled(s, q, v, t) ensures Entitled(s', q, v, t) { SameEntitled(s, s', q, v, t); }
  }

  // ---------- What never changes ----------

  /** An invite keeps everything but its status, and an answered one its status too. */
  ghost predicate SameInvite(a: Invite, b: Invite) {
    b == a.(status := b.status) && (a.status != Pending ==> b == a)
  }

  /** Ids never come back, rooms keep their owner and kind, and invites go only with their room. */
  ghost predicate Evolves(s: Tables, s': Tables) {
    && s.used <= s'.used && s.usedInvites <= s'.usedInvites && s.clock <= s'.clock
    && (forall r <- s.used | r in s'.rooms ::
          r in s.rooms && s'.rooms[r].kind == s.rooms[r].kind && s'.rooms[r].owner == s.rooms[r].owner)
    && (forall i <- s.usedInvites | i in s'.invites :: i in s.invites && SameInvite(s.invites[i], s'.invites[i]))
    && (forall i <- s.invites | s.invites[i].room in s'.rooms :: i in s'.invites)
  }

  lemma EvolvesThrough(s: Tables, s1: Tables, s2: Tables)
    requires Referenced(s) && Referenced(s1) && Evolves(s, s1) && Evolves(s1, s2)
    ensures Evolves(s, s2)
  {
    forall i <- s.invites | s.invites[i].room in s2.rooms ensures i in s2.invites {
      assert s.invites[i].room in s1.rooms;
      assert s1.invites[i].room in s2.rooms;
    }
  }

  lemma EntitledStays(s: Tables, s': Tables, r: RoomId, u: UserId, t: nat, t': nat)
    requires Referenced(s) && Evolves(s, s') && Entitled(s, r, u, t) && r in s'.rooms && t <= t'
    ensures Entitled(s', r, u, t')
  {
    if s.rooms[r].owner != u {
      var i :| HasAccepted(s, i, r, u) && s.invites[i].at < t;
      assert HasAccepted(s', i, r, u);
    }
  }

  lemma BeginEvolves(s: Tables, q: Request)
    requires Referenced(s) && Enabled(s, q)
    ensures Evolves(s, Begin(s, q).0)
  {
    if !q.Create? && !q.Delete? { assert Begin(s, q).0 == s; }
  }

  lemma ContinueEvolves(s: Tables, t: Task)
    requires Referenced(s)
    requires t.OpenDM? ==> t.id !in s.used
    requires t.WriteInvite? ==> t.invite !in s.usedInvites
    ensures Evolves(s, Continue(s, t).0)
  {
    if !t.OpenDM? && !t.WriteInvite? && !t.ClaimInvite? && !t.RefuseInvite? && !t.WriteName? {
      MembersOnly(s, t);
    }
  }

  /** The other statements change no more than member rows. */
  lemma MembersOnly(s: Tables, t: Task)
    requires !t.OpenDM? && !t.WriteInvite? && !t.ClaimInvite? && !t.RefuseInvite? && !t.WriteName?
    ensures Continue(s, t).0 == s.(members := Continue(s, t).0.members)
  {}

  lemma MoveEvolves(st: Store, m: Move)
    requires Referenced(st.tables) && Possible(st, m)
    ensures Evolves(st.tables, Next(st, m).tables)
  {
    if m.Start? { BeginEvolves(st.tables, m.q); } else { ContinueEvolves(st.tables, m.task); }
  }

  // ---------- Calls in progress ----------

  ghost predicate IsPrivate(s: Tables, r: RoomId) {
    r in s.used && (r in s.rooms ==> s.rooms[r].kind == Private)
  }

  /** What a call in progress may rely on, whatever the others did since it read the tables. */
  ghost predicate Justified(s: Tables, t: Task) {
    match t
    case PutOwner(r, u) => r in s.used && (r in s.rooms ==> s.rooms[r].owner == u)
    case CheckInviter(_, r, _, _) => IsPrivate(s, r)
    case WriteInvite(_, r, inviter, _) => IsPrivate(s, r) && (r in s.rooms ==> Entitled(s, r, inviter, s.clock))
    case ClaimInvite(i, r, u) =>
      IsPrivate(s, r) && i in s.usedInvites && (i in s.invites ==> s.invites[i].room == r && s.invites[i].invitee == u)
    case PutInvitee(r, u) => IsPrivate(s, r) && (r in s.rooms ==> Entitled(s, r, u, s.clock))
    case CheckOwner(_, _, _, _, role) => role != Owner
    case WriteRole(_, _, role) => role != Owner
    case PutJoiner(r, _) => r in s.used && (r in s.rooms ==> s.rooms[r].kind == Public || s.rooms[r].kind == Voice)
    case _ => true
  }

  ghost predicate AllJustified(st: Store) {
    forall t | t in st.tasks :: Justified(st.tables, t)
  }

  lemma JustifiedStays(s: Tables, s': Tables, t: Task)
    requires Referenced(s) && Evolves(s, s') && Justified(s, t)
    ensures Justified(s', t)
  {
    if t.WriteInvite? && t.room in s'.rooms { EntitledStays(s, s', t.room, t.inviter, s.clock, s'.clock); }
    if t.PutInvitee? && t.room in s'.rooms { EntitledStays(s, s', t.room, t.user, s.clock, s'.clock); }
  }

  /** The first statement of a call leaves lawful tables and a justified rest. */
  lemma BeginLawful(s: Tables, q: Request)
    requires Lawful(s) && Enabled(s, q)
    ensures Lawful(Begin(s, q).0)
    ensures Begin(s, q).1.More? ==> Justified(Begin(s, q).0, Begin(s, q).1.task)
  {
    if q.Create? && TrimSpace(q.name) != "" { InsertRoomLawful(s, q.id, Room(q.kind, q.owner, TrimSpace(q.name))); }
    if q.Delete? { RemoveRoomLawful(s, q.room); }
  }

  lemma ContinueLawful(s: Tables, t: Task)
    requires Lawful(s) && Justified(s, t)
    requires t.OpenDM? ==> t.id !in s.used
    requires t.WriteInvite? ==> t.invite !in s.usedInvites
    ensures Lawful(Continue(s, t).0)
    ensures Continue(s, t).1.More? ==> Justified(Continue(s, t).0, Continue(s, t).1.task)
  {
    match t
    case PutOwner(r, u) =>
      if r in s.rooms {
        assert Entitled(s, r, u, s.clock);
        PutMemberLawful(s, r, u, Owner);
      }
    case CheckInviter(_, r, inviter, _) => if IsMember(s, r, inviter) { assert (r, inviter) in s.members; }
    case WriteInvite(id, r, inviter, invitee) =>
      if r in s.rooms && !Invited(s, r, invitee) { InsertInviteLawful(s, id, r, inviter, invitee); }
    case ClaimInvite(id, r, u) =>
      if id in s.invites && s.invites[id].status == Pending {
        SetStatusLawful(s, id, Accepted);
        assert HasAccepted(SetStatus(s, id, Accepted), id, r, u);
      }
    case PutInvitee(r, u) => if r in s.rooms { PutMemberLawful(s, r, u, Member); }
    case RefuseInvite(id) => if id in s.invites && s.invites[id].status == Pending { SetStatusLawful(s, id, Declined); }
    case WriteRole(r, u, role) => if IsMember(s, r, u) { PutMemberLawful(s, r, u, role); }
    case RemoveTarget(r, u) => RemoveMemberLawful(s, (r, u));
    case PutJoiner(r, u) => if r in s.rooms { PutMemberLawful(s, r, u, Member); }
    case WriteName(r, name) => if r in s.rooms { RenameLawful(s, r, name); }
    case OpenDM(id, a, b) => if a != b { OpenDMLawful(s, id, a, b); }
    case _ =>
  }

  lemma OpenDMLawful(s: Tables, id: RoomId, a: UserId, b: UserId)
    requires Lawful(s) && id !in s.used && a != b
    ensures Lawful(Continue(s, OpenDM(id, a, b)).0)
  {
    var s1 := InsertRoom(s, id, Room(DM, a, ""));
    InsertRoomLawful(s, id, Room(DM, a, ""));
    PutMemberLawful(s1, id, a, Member);
    PutMemberLawful(PutMember(s1, id, a, Member), id, b, Member);
  }

  lemma MoveLawful(st: Store, m: Move)
    requires Lawful(st.tables) && AllJustified(st) && Possible(st, m)
    ensures Lawful(Next(st, m).tables) && AllJustified(Next(st, m))
  {
    MoveEvolves(st, m);
    if m.Start? { BeginLawful(st.tables, m.q); } else { ContinueLawful(st.tables, m.task); }
    forall t | t in Next(st, m).tasks ensures Justified(Next(st, m).tables, t) {
      if t in st.tasks { JustifiedStays(st.tables, Next(st, m).tables, t); }
    }
  }

  lemma {:induction false} HistoryLawful(sts: seq<Store>, ms: seq<Move>, n: nat)
    requires IsHistory(sts, ms) && n <= |ms|
    ensures Lawful(sts[n].tables) && AllJustified(sts[n])
  {
    if n > 0 {
      HistoryLawful(sts, ms, n - 1);
      MoveLawful(sts[n - 1], ms[n - 1]);
    }
  }

  lemma {:induction false} HistoryEvolves(sts: seq<Store>, ms: seq<Move>, m: nat, n: nat)
    requires IsHistory(sts, ms) && m <= n <= |ms|
    ensures Evolves(sts[m].tables, sts[n].tables)
    decreases n
  {
    HistoryLawful(sts, ms, m);
    if m < n {
      HistoryEvolves(sts, ms, m, n - 1);
      HistoryLawful(sts, ms, n - 1);
      MoveEvolves(sts[n - 1], ms[n - 1]);
      EvolvesThrough(sts[m].tables, sts[n - 1].tables, sts[n].tables);
    }
  }

  // ---------- Owner role ----------

  /** In every history a member row with the owner role belongs to the room's owner. */
  lemma OwnerRoleNeverForged(sts: seq<Store>, ms: seq<Move>, n: nat, r: RoomId, u: UserId)
    requires IsHistory(sts, ms) && n <= |ms|
    ensures var s := sts[n].tables;
            (r, u) in s.members && s.members[(r, u)] == Owner ==> r in s.rooms && s.rooms[r].owner == u
  {
    HistoryLawful(sts, ms, n);
  }

  /** A room keeps its owner and its kind for as long as it exists, and its id never comes back. */
  lemma OwnerNeverChanges(sts: seq<Store>, ms: seq<Move>, m: nat, n: nat, r: RoomId)
    requires IsHistory(sts, ms) && m <= n <= |ms| && r in sts[m].tables.used
    ensures var s, s' := sts[m].tables, sts[n].tables;
            && r in s'.used
            && (r in s'.rooms ==>
                  r in s.rooms && s'.rooms[r].kind == s.rooms[r].kind && s'.rooms[r].owner == s.rooms[r].owner)
  {
    HistoryEvolves(sts, ms, m, n);
  }

  // ---------- Private rooms ----------

  /** At move n or before, u was the owner or a member of r. */
  ghost predicate WasInside(sts: seq<Store>, n: nat, r: RoomId, u: UserId)
    requires n < |sts|
  {
    exists j :: 0 <= j <= n && r in sts[j].tables.rooms
                && (sts[j].tables.rooms[r].owner == u || (r, u) in sts[j].tables.members)
  }

  /** The moment at which the k-th user of a chain is looked at: n for the first, then the creation of the invite the
      user wrote. */
  ghost function When(n: nat, at: seq<nat>, k: nat): nat
    requires k <= |at|
  {
    if k == 0 then n else at[k - 1]
  }

  /** By then path[k] had accepted invite via[k], which path[k + 1], who had been seen inside the room, wrote with the
      earlier move at[k]. */
  ghost predicate Link(sts: seq<Store>, ms: seq<Move>, n: nat, r: RoomId, path: seq<UserId>, via: seq<InviteId>,
                       at: seq<nat>, k: nat)
    requires |sts| == |ms| + 1 && |path| == |via| + 1 && |at| == |via| && k < |via|
  {
    && at[k] < When(n, at, k) <= |ms|
    && ms[at[k]] == Resume(WriteInvite(via[k], r, path[k + 1], path[k]))
    && HasAccepted(sts[When(n, at, k)].tables, via[k], r, path[k])
    && WasInside(sts, at[k], r, path[k + 1])
  }

  ghost predicate IsChain(sts: seq<Store>, ms: seq<Move>, n: nat, r: RoomId, path: seq<UserId>, via: seq<InviteId>,
                          at: seq<nat>)
    requires |sts| == |ms| + 1 && n <= |ms|
  {
    && |path| == |via| + 1 && |at| == |via|
    && r in sts[n].tables.rooms && path[|via|] == sts[n].tables.rooms[r].owner
    && forall k | 0 <= k < |via| :: Link(sts, ms, n, r, path, via, at, k)
  }

  lemma BeginWritesNoInvite(s: Tables, q: Request, i: InviteId)
    ensures i in Begin(s, q).0.invites ==> i in s.invites
  {}

  lemma WhoWritesInvite(s: Tables, t: Task, i: InviteId)
    requires i in Continue(s, t).0.invites && i !in s.invites
    ensures var inv := Continue(s, t).0.invites[i];
            t == WriteInvite(i, inv.room, inv.inviter, inv.invitee) && inv.room in s.rooms
  {
  }

  lemma NewInvite(st: Store, m: Move, i: InviteId)
    requires Possible(st, m) && i in Next(st, m).tables.invites && i !in st.tables.invites
    ensures var inv := Next(st, m).tables.invites[i];
            m == Resume(WriteInvite(i, inv.room, inv.inviter, inv.invitee)) && inv.room in st.tables.rooms
  {
    if m.Start? { BeginWritesNoInvite(st.tables, m.q, i); } else { WhoWritesInvite(st.tables, m.task, i); }
  }

  /** The move that wrote an invite. */
  lemma {:induction false} CreatedAt(sts: seq<Store>, ms: seq<Move>, n: nat, i: InviteId) returns (k: nat)
    requires IsHistory(sts, ms) && n <= |ms| && i in sts[n].tables.invites
    ensures var inv := sts[n].tables.invites[i];
            && k < n && ms[k] == Resume(WriteInvite(i, inv.room, inv.inviter, inv.invitee))
            && inv.room in sts[k].tables.rooms
    decreases n
  {
    HistoryLawful(sts, ms, n - 1);
    if i in sts[n - 1].tables.invites {
      HistoryEvolves(sts, ms, n - 1, n);
      k := CreatedAt(sts, ms, n - 1, i);
    } else {
      k := n - 1;
      NewInvite(sts[k], ms[k], i);
    }
  }

  /** Whoever is about to write an invite was seen inside the room. */
  lemma {:induction false} InviterWasInside(sts: seq<Store>, ms: seq<Move>, n: nat, t: Task)
    requires IsHistory(sts, ms) && n <= |ms| && t in sts[n].tasks && t.WriteInvite?
    ensures WasInside(sts, n, t.room, t.inviter)
    decreases n
  {
    if t in sts[n - 1].tasks {
      InviterWasInside(sts, ms, n - 1, t);
      var j :| 0 <= j <= n - 1 && t.room in sts[j].tables.rooms
               && (sts[j].tables.rooms[t.room].owner == t.inviter || (t.room, t.inviter) in sts[j].tables.members);
    } else {
      HistoryLawful(sts, ms, n - 1);
      NewTask(sts[n - 1], ms[n - 1], t);
      CheckedInside(sts[n - 1].tables, ms[n - 1], t);
    }
  }

  lemma CheckedInside(s: Tables, m: Move, t: Task)
    requires Referenced(s) && t.WriteInvite?
    requires m.Start? ==> Begin(s, m.q).1 == More(t)
    requires m.Resume? ==> Continue(s, m.task).1 == More(t)
    ensures t.room in s.rooms && (s.rooms[t.room].owner == t.inviter || (t.room, t.inviter) in s.members)
  {}

  lemma LongerChain(sts: seq<Store>, ms: seq<Move>, n: nat, k: nat, r: RoomId, u: UserId, i: InviteId,
                    path: seq<UserId>, via: seq<InviteId>, at: seq<nat>)
    requires IsHistory(sts, ms) && k < n <= |ms| && IsChain(sts, ms, k, r, path, via, at)
    requires r in sts[n].tables.rooms && sts[n].tables.rooms[r].owner == sts[k].tables.rooms[r].owner
    requires Link(sts, ms, n, r, [u] + path, [i] + via, [k] + at, 0)
    ensures IsChain(sts, ms, n, r, [u] + path, [i] + via, [k] + at)
  {
    forall j | 0 <= j < |[i] + via| ensures Link(sts, ms, n, r, [u] + path, [i] + via, [k] + at, j) {
      if j > 0 {
        assert Link(sts, ms, k, r, path, via, at, j - 1);
        assert When(n, [k] + at, j) == When(k, at, j - 1);
      }
    }
  }

  lemma {:induction false} TraceBack(sts: seq<Store>, ms: seq<Move>, n: nat, r: RoomId, u: UserId)
    returns (path: seq<UserId>, via: seq<InviteId>, at: seq<nat>)
    requires IsHistory(sts, ms) && n <= |ms| && Entitled(sts[n].tables, r, u, sts[n].tables.clock)
    ensures IsChain(sts, ms, n, r, path, via, at) && path[0] == u
    decreases n
  {
    if sts[n].tables.rooms[r].owner == u {
      path, via, at := [u], [], [];
    } else {
      var i :| HasAccepted(sts[n].tables, i, r, u);
      var inviter := sts[n].tables.invites[i].inviter;
      var k := CreatedAt(sts, ms, n, i);
      HistoryLawful(sts, ms, k);
      var t := WriteInvite(i, r, inviter, u);
      assert t in sts[k].tasks && Justified(sts[k].tables, t);
      InviterWasInside(sts, ms, k, t);
      HistoryEvolves(sts, ms, k, n);
      var olderPath, older, olderAt := TraceBack(sts, ms, k, r, inviter);
      path, via, at := [u] + olderPath, [i] + older, [k] + olderAt;
      assert Link(sts, ms, n, r, path, via, at, 0);
      LongerChain(sts, ms, n, k, r, u, i, olderPath, older, olderAt);
    }
  }

  /** Following the inviters back from a member of a private room: a finite chain of accepted invites that ends at the
      owner. Each invite was written earlier than the moment its inviter is looked at next, by somebody seen inside
      the room; and at that writing the inviter was the owner or had already accepted the next invite of the chain. */
  lemma MembersTraceToOwner(sts: seq<Store>, ms: seq<Move>, n: nat, r: RoomId, u: UserId)
    returns (path: seq<UserId>, via: seq<InviteId>, at: seq<nat>)
    requires IsHistory(sts, ms) && n <= |ms|
    requires (r, u) in sts[n].tables.members && r in sts[n].tables.rooms && sts[n].tables.rooms[r].kind == Private
    ensures IsChain(sts, ms, n, r, path, via, at) && path[0] == u
  {
    HistoryLawful(sts, ms, n);
    path, via, at := TraceBack(sts, ms, n, r, u);
  }

  /** At any time a room has at most one invite for a user. */
  lemma InvitesAreUnique(sts: seq<Store>, ms: seq<Move>, n: nat, i: InviteId, j: InviteId)
    requires IsHistory(sts, ms) && n <= |ms| && i in sts[n].tables.invites && j in sts[n].tables.invites
    ensures var a, b := sts[n].tables.invites[i], sts[n].tables.invites[j];
            a.room == b.room && a.invitee == b.invitee ==> i == j
  {
    HistoryLawful(sts, ms, n);
  }

  /** Invites are one-shot: once answered, an invite never changes, it goes only with its room, and its id never comes
      back. */
  lemma AnswersAreFinal(sts: seq<Store>, ms: seq<Move>, m: nat, n: nat, i: InviteId)
    requires IsHistory(sts, ms) && m <= n <= |ms|
    requires i in sts[m].tables.invites && sts[m].tables.invites[i].status != Pending
    ensures var s, s' := sts[m].tables, sts[n].tables;
            && (i in s'.invites ==> s'.invites[i] == s.invites[i])
            && (i !in s'.invites ==> s.invites[i].room !in s'.rooms && i in s'.usedInvites)
  {
    HistoryEvolves(sts, ms, m, n);
    HistoryLawful(sts, ms, m);
  }

  ghost predicate MayStillPut(st: Store, r: RoomId, u: UserId) {
    PutInvitee(r, u) in st.tasks && r in st.tables.rooms && st.tables.rooms[r].owner != u
  }

  /** An accepted invite writes its member row once: while that is outstanding the user is not a member. */
  ghost predicate OnePut(st: Store) {
    forall r: RoomId, u: UserId | MayStillPut(st, r, u) ::
      && st.tasks[PutInvitee(r, u)] == 1
      && (r, u) !in st.tables.members
      && exists i :: HasAccepted(st.tables, i, r, u)
  }

  lemma OnePutStays(st: Store, m: Move)
    requires Lawful(st.tables) && AllJustified(st) && OnePut(st) && Possible(st, m)
    ensures OnePut(Next(st, m))
  {
    var st' := Next(st, m);
    MoveEvolves(st, m);
    forall r: RoomId, u: UserId | MayStillPut(st', r, u)
      ensures st'.tasks[PutInvitee(r, u)] == 1 && (r, u) !in st'.tables.members
              && exists i :: HasAccepted(st'.tables, i, r, u)
    {
      OnePutFor(st, m, r, u);
    }
  }

  ghost predicate NewMember(st: Store, m: Move, r: RoomId, u: UserId) {
    (r, u) !in st.tables.members && (r, u) in Next(st, m).tables.members
  }

  lemma BeginInsertsNone(s: Tables, q: Request, k: (RoomId, UserId))
    ensures k in Begin(s, q).0.members ==> k in s.members
  {}

  lemma ContinueInserts(s: Tables, t: Task, r: RoomId, u: UserId)
    requires (r, u) !in s.members && (r, u) in Continue(s, t).0.members
    ensures t == PutOwner(r, u) || t == PutInvitee(r, u) || t == PutJoiner(r, u) || (t.OpenDM? && t.id == r)
  {}

  /** The statements that insert member rows. */
  lemma WhoInserts(st: Store, m: Move, r: RoomId, u: UserId)
    requires NewMember(st, m, r, u)
    ensures m.Resume?
    ensures m.task == PutOwner(r, u) || m.task == PutInvitee(r, u) || m.task == PutJoiner(r, u)
            || (m.task.OpenDM? && m.task.id == r)
  {
    if m.Start? { BeginInsertsNone(st.tables, m.q, (r, u)); } else { ContinueInserts(st.tables, m.task, r, u); }
  }

  /** The only way into a private room, except for its owner: the last statement of an accepted invite. */
  lemma OnlyInviteesEnter(st: Store, m: Move, r: RoomId, u: UserId)
    requires Lawful(st.tables) && AllJustified(st) && Possible(st, m) && IsPrivate(st.tables, r)
    requires r in Next(st, m).tables.rooms ==> Next(st, m).tables.rooms[r].owner != u
    ensures NewMember(st, m, r, u) ==> m == Resume(PutInvitee(r, u))
  {
    if NewMember(st, m, r, u) {
      MoveEvolves(st, m);
      MoveLawful(st, m);
      WhoInserts(st, m, r, u);
      assert Justified(st.tables, m.task);
    }
  }

  /** ... and that statement comes only out of claiming a pending invite. */
  lemma OnlyClaimsPut(st: Store, m: Move, r: RoomId, u: UserId)
    requires Possible(st, m)
    ensures Next(st, m).tasks[PutInvitee(r, u)] > st.tasks[PutInvitee(r, u)] ==>
              && m.Resume? && m.task.ClaimInvite? && m.task.room == r && m.task.user == u
              && m.task.invite in st.tables.invites && st.tables.invites[m.task.invite].status == Pending
              && Next(st, m) == Store(SetStatus(st.tables, m.task.invite, Accepted),
                                      st.tasks - multiset{m.task} + multiset{PutInvitee(r, u)})
  {}

  lemma OnePutFor(st: Store, m: Move, r: RoomId, u: UserId)
    requires Lawful(st.tables) && AllJustified(st) && OnePut(st) && Possible(st, m) && MayStillPut(Next(st, m), r, u)
    ensures var st' := Next(st, m);
            st'.tasks[PutInvitee(r, u)] == 1 && (r, u) !in st'.tables.members
                && exists i :: HasAccepted(st'.tables, i, r, u)
  {
    if Next(st, m).tasks[PutInvitee(r, u)] > st.tasks[PutInvitee(r, u)] {
      ClaimIsFirst(st, m, r, u);
    } else {
      PutStaysOne(st, m, r, u);
    }
  }

  lemma ClaimIsFirst(st: Store, m: Move, r: RoomId, u: UserId)
    requires Lawful(st.tables) && AllJustified(st) && OnePut(st) && Possible(st, m) && MayStillPut(Next(st, m), r, u)
    requires Next(st, m).tasks[PutInvitee(r, u)] > st.tasks[PutInvitee(r, u)]
    ensures Next(st, m).tasks[PutInvitee(r, u)] == 1 && (r, u) !in Next(st, m).tables.members
    ensures exists i :: HasAccepted(Next(st, m).tables, i, r, u)
  {
    OnlyClaimsPut(st, m, r, u);
    var s, id := st.tables, m.task.invite;
    assert Justified(s, m.task);
    assert HasAccepted(Next(st, m).tables, id, r, u);
    assert forall i | HasAccepted(s, i, r, u) :: i == id;
    assert (r, u) in s.members ==> Entitled(s, r, u, s.clock);
    assert !MayStillPut(st, r, u);
  }

  lemma PutStaysOne(st: Store, m: Move, r: RoomId, u: UserId)
    requires Lawful(st.tables) && AllJustified(st) && OnePut(st) && Possible(st, m) && MayStillPut(Next(st, m), r, u)
    requires Next(st, m).tasks[PutInvitee(r, u)] <= st.tasks[PutInvitee(r, u)]
    ensures Next(st, m).tasks[PutInvitee(r, u)] == 1 && (r, u) !in Next(st, m).tables.members
    ensures exists i :: HasAccepted(Next(st, m).tables, i, r, u)
  {
    MoveEvolves(st, m);
    assert Justified(st.tables, PutInvitee(r, u));
    assert MayStillPut(st, r, u);
    var i :| HasAccepted(st.tables, i, r, u);
    assert HasAccepted(Next(st, m).tables, i, r, u);
    OnlyInviteesEnter(st, m, r, u);
  }

  lemma {:induction false} HistoryOnePut(sts: seq<Store>, ms: seq<Move>, n: nat)
    requires IsHistory(sts, ms) && n <= |ms|
    ensures OnePut(sts[n])
  {
    if n > 0 {
      HistoryOnePut(sts, ms, n - 1);
      HistoryLawful(sts, ms, n - 1);
      OnePutStays(sts[n - 1], ms[n - 1]);
    }
  }

  /** u has used its one entry to r: the room is gone, or it is private, u is not its owner, and u's invite is accepted
      and has written its member row. */
  ghost predicate Passed(st: Store, r: RoomId, u: UserId, i: InviteId) {
    && r in st.tables.used && i in st.tables.usedInvites
    && (r in st.tables.rooms ==>
          && st.tables.rooms[r].kind == Private && st.tables.rooms[r].owner != u
          && HasAccepted(st.tables, i, r, u) && PutInvitee(r, u) !in st.tasks)
  }

  lemma PassedStays(st: Store, m: Move, r: RoomId, u: UserId, i: InviteId)
    requires Lawful(st.tables) && AllJustified(st) && Possible(st, m) && Passed(st, r, u, i)
    ensures Passed(Next(st, m), r, u, i)
    ensures (r, u) !in st.tables.members ==> (r, u) !in Next(st, m).tables.members
  {
    MoveEvolves(st, m);
    MoveLawful(st, m);
    OnlyClaimsPut(st, m, r, u);
    if r in Next(st, m).tables.rooms {
      if m.Resume? { assert Justified(st.tables, m.task); }
      OnlyInviteesEnter(st, m, r, u);
    }
  }

  lemma PassedOneMore(sts: seq<Store>, ms: seq<Move>, n: nat, r: RoomId, u: UserId, i: InviteId)
    requires IsHistory(sts, ms) && 0 < n <= |ms| && Passed(sts[n - 1], r, u, i)
    ensures Passed(sts[n], r, u, i)
    ensures (r, u) !in sts[n - 1].tables.members ==> (r, u) !in sts[n].tables.members
  {
    HistoryLawful(sts, ms, n - 1);
    assert Possible(sts[n - 1], ms[n - 1]) && sts[n] == Next(sts[n - 1], ms[n - 1]);
    PassedStays(sts[n - 1], ms[n - 1], r, u, i);
  }

  lemma {:induction false} PassedForever(sts: seq<Store>, ms: seq<Move>, m: nat, n: nat, r: RoomId, u: UserId,
                                         i: InviteId)
    requires IsHistory(sts, ms) && m <= n <= |ms| && Passed(sts[m], r, u, i)
    ensures Passed(sts[n], r, u, i)
    ensures (r, u) !in sts[m].tables.members ==> (r, u) !in sts[n].tables.members
    decreases n
  {
    if m < n {
      PassedForever(sts, ms, m, n - 1, r, u, i);
      PassedOneMore(sts, ms, n, r, u, i);
    }
  }

  /** A member of a private room that is not its owner and is no longer a member at some later time is never a member
      of the room again, whatever calls are in progress. */
  lemma RemovedNeverReturns(sts: seq<Store>, ms: seq<Move>, k: nat, m: nat, n: nat, r: RoomId, u: UserId)
    requires IsHistory(sts, ms) && k <= m <= n <= |ms|
    requires (r, u) in sts[k].tables.members
    requires r in sts[k].tables.rooms && sts[k].tables.rooms[r].kind == Private && sts[k].tables.rooms[r].owner != u
    requires (r, u) !in sts[m].tables.members
    ensures (r, u) !in sts[n].tables.members
  {
    HistoryLawful(sts, ms, k);
    HistoryOnePut(sts, ms, k);
    assert Entitled(sts[k].tables, r, u, sts[k].tables.clock);
    var i :| HasAccepted(sts[k].tables, i, r, u);
    assert !MayStillPut(sts[k], r, u);
    PassedForever(sts, ms, k, m, r, u, i);
    PassedForever(sts, ms, m, n, r, u, i);
  }
}
