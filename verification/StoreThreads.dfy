/** The room service's calls as the server runs them: every SQL statement is atomic, and the statements of any number
    of calls interleave. */
module StoreThreads {
  import opened Domain
  import opened StoreModel

  /** The next statement of a call in progress, with what the call has read so far. */
  datatype Task =
    | PutOwner(room: RoomId, owner: UserId)
    | CheckInviter(invite: InviteId, room: RoomId, inviter: UserId, invitee: UserId)
    | WriteInvite(invite: InviteId, room: RoomId, inviter: UserId, invitee: UserId)
    | ClaimInvite(invite: InviteId, room: RoomId, user: UserId)
    | PutInvitee(room: RoomId, user: UserId)
    | RefuseInvite(invite: InviteId)
    | CheckOwner(room: RoomId, requester: UserId, held: Role, target: UserId, role: Role)
    | WriteRole(room: RoomId, target: UserId, role: Role)
    | CheckTarget(room: RoomId, held: Role, target: UserId)
    | RemoveTarget(room: RoomId, target: UserId)
    | PutJoiner(room: RoomId, user: UserId)
    | CheckJoiner(room: RoomId, user: UserId)
    | WriteName(room: RoomId, name: string)
    | OpenDM(id: RoomId, a: UserId, b: UserId)

  datatype Progress = More(task: Task) | Over(out: Outcome)

  /** The first statement of a call. */
  ghost function Begin(s: Tables, q: Request): (Tables, Progress) {
    match q
    case Create(id, name, kind, owner) =>
      if TrimSpace(name) == "" then (s, Over(BadRequest))
      else (InsertRoom(s, id, Room(kind, owner, TrimSpace(name))), More(PutOwner(id, owner)))
    case Delete(_, _, _) => (Call(s, q).0, Over(Call(s, q).1))
    case InviteUser(id, r, inviter, invitee) =>
      if r !in s.rooms then (s, Over(NotFound))
      else if s.rooms[r].kind != Private then (s, Over(BadRequest))
      else if s.rooms[r].owner == inviter then (s, More(WriteInvite(id, r, inviter, invitee)))
      else (s, More(CheckInviter(id, r, inviter, invitee)))
    case AcceptInvite(id, user) =>
      if id !in s.invites then (s, Over(NotFound))
      else if s.invites[id].invitee != user then (s, Over(Forbidden))
      else (s, More(ClaimInvite(id, s.invites[id].room, user)))
    case DeclineInvite(id, user) =>
      if id !in s.invites then (s, Over(NotFound))
      else if s.invites[id].invitee != user then (s, Over(Forbidden))
      else (s, More(RefuseInvite(id)))
    case SetRole(r, requester, target, role) =>
      if role == Owner || !IsMember(s, r, requester) then (s, Over(Forbidden))
      else (s, More(CheckOwner(r, requester, s.members[(r, requester)], target, role)))
    case KickMember(r, requester, target) =>
      if requester == target then (s, Over(BadRequest))
      else if !IsMember(s, r, requester) then (s, Over(Forbidden))
      else (s, More(CheckTarget(r, s.members[(r, requester)], target)))
    case HubJoin(r, user) =>
      if r !in s.rooms then (s, Over(NotFound))
      else if s.rooms[r].kind == Public || s.rooms[r].kind == Voice then (s, More(PutJoiner(r, user)))
      else if s.rooms[r].kind == Private && s.rooms[r].owner == user then (s, Over(Done))
      else (s, More(CheckJoiner(r, user)))
    case Rename(r, requester, name, isAdmin) =>
      if TrimSpace(name) == "" then (s, Over(BadRequest))
      else if r !in s.rooms then (s, Over(NotFound))
      else if !isAdmin && s.rooms[r].owner != requester then (s, Over(Forbidden))
      else (s, More(WriteName(r, TrimSpace(name))))
    case GetOrCreateDM(id, a, b, found) =>
      (s, if found.Some? then Over(Done) else More(OpenDM(id, a, b)))
  }

  /** INSERT INTO room_members: the foreign key refuses a room that is gone. */
  ghost function AddMember(s: Tables, r: RoomId, u: UserId, role: Role): (Tables, Outcome) {
    if r in s.rooms then (PutMember(s, r, u, role), Done) else (s, Conflict)
  }

  /** One further statement. */
  ghost function Continue(s: Tables, t: Task): (Tables, Progress) {
    match t
    case PutOwner(r, owner) => (AddMember(s, r, owner, Owner).0, Over(Done))
    case CheckInviter(id, r, inviter, invitee) =>
      (s, if IsMember(s, r, inviter) then More(WriteInvite(id, r, inviter, invitee)) else Over(Forbidden))
    case WriteInvite(id, r, inviter, invitee) =>
      if r !in s.rooms || Invited(s, r, invitee) then (s, Over(Conflict))
      else (InsertInvite(s, id, r, inviter, invitee), Over(Done))
    case ClaimInvite(id, r, user) =>
      if id in s.invites && s.invites[id].status == Pending then (SetStatus(s, id, Accepted), More(PutInvitee(r, user)))
      else (s, Over(NotFound))
    case PutInvitee(r, user) => (AddMember(s, r, user, Member).0, Over(AddMember(s, r, user, Member).1))
    case RefuseInvite(id) =>
      if id in s.invites && s.invites[id].status == Pending then (SetStatus(s, id, Declined), Over(Done))
      else (s, Over(NotFound))
    case CheckOwner(r, requester, held, target, role) =>
      if r !in s.rooms then (s, Over(NotFound))
      else if held != Owner && s.rooms[r].owner != requester then (s, Over(Forbidden))
      else (s, More(WriteRole(r, target, role)))
    case WriteRole(r, target, role) =>
      if IsMember(s, r, target) then (PutMember(s, r, target, role), Over(Done)) else (s, Over(NotFound))
    case CheckTarget(r, held, target) =>
      if !IsMember(s, r, target) then (s, Over(NotFound))
      else if !MayKick(held, s.members[(r, target)]) then (s, Over(Forbidden))
      else (s, More(RemoveTarget(r, target)))
    case RemoveTarget(r, target) => (s.(members := s.members - {(r, target)}), Over(Done))
    case PutJoiner(r, user) => (AddMember(s, r, user, Member).0, Over(Done))
    case CheckJoiner(r, user) => (s, Over(if IsMember(s, r, user) then Done else Forbidden))
    case WriteName(r, name) =>
      if r in s.rooms then (s.(rooms := s.rooms[r := s.rooms[r].(name := name)]), Over(Done)) else (s, Over(NotFound))
    case OpenDM(id, a, b) =>
      if a == b then (s, Over(Conflict))
      else (PutMember(PutMember(InsertRoom(s, id, Room(DM, a, "")), id, a, Member), id, b, Member), Over(Done))
  }

  /** How many statements a task still needs at most. */
  ghost function Rank(p: Progress): nat {
    if p.Over? then 0
    else if p.task.CheckInviter? || p.task.ClaimInvite? || p.task.CheckOwner? || p.task.CheckTarget? then 2
    else 1
  }

  /** The rest of a call when no other call intervenes. */
  ghost function Finish(s: Tables, p: Progress): (Tables, Outcome)
    decreases Rank(p)
  {
    match p
    case Over(out) => (s, out)
    case More(t) => Finish(Continue(s, t).0, Continue(s, t).1)
  }

  /** A call that runs alone is the atomic step the service's method is proved against. */
  lemma AloneIsCall(s: Tables, q: Request)
    requires forall i <- s.invites :: s.invites[i].room in s.rooms
    ensures Finish(Begin(s, q).0, Begin(s, q).1) == Call(s, q)
  {
    var (s1, p) := Begin(s, q);
    if p.More? {
      var (s2, p2) := Continue(s1, p.task);
      if p2.More? { assert Finish(s2, p2) == Finish(Continue(s2, p2.task).0, Continue(s2, p2.task).1); }
    }
  }

  // ---------- Interleaved histories ----------

  /** The tables and the calls in progress. */
  datatype Store = Store(tables: Tables, tasks: multiset<Task>)

  datatype Move = Start(q: Request) | Resume(task: Task)

  const EMPTY_STORE := Store(NO_ROWS, multiset{})

  ghost function After(tasks: multiset<Task>, p: Progress): multiset<Task> {
    if p.More? then tasks + multiset{p.task} else tasks
  }

  ghost function Next(st: Store, m: Move): Store {
    match m
    case Start(q) => Store(Begin(st.tables, q).0, After(st.tasks, Begin(st.tables, q).1))
    case Resume(t) => Store(Continue(st.tables, t).0, After(st.tasks - multiset{t}, Continue(st.tables, t).1))
  }

  /** Only calls in progress are resumed, and generated ids are new. A call may stay unfinished forever. */
  ghost predicate Possible(st: Store, m: Move) {
    match m
    case Start(q) => Enabled(st.tables, q)
    case Resume(t) =>
      && t in st.tasks
      && (t.OpenDM? ==> t.id !in st.tables.used)
      && (t.WriteInvite? ==> t.invite !in st.tables.usedInvites)
  }

  lemma NewTask(st: Store, m: Move, t: Task)
    requires Possible(st, m) && t in Next(st, m).tasks && t !in st.tasks
    ensures m.Start? ==> Enabled(st.tables, m.q) && Begin(st.tables, m.q).1 == More(t)
    ensures m.Resume? ==> m.task in st.tasks && Continue(st.tables, m.task).1 == More(t)
  {}

  /** A history: the states sts it goes through and the moves ms between them. */
  ghost predicate IsHistory(sts: seq<Store>, ms: seq<Move>) {
    && |sts| == |ms| + 1 && sts[0] == EMPTY_STORE
    && forall i {:trigger ms[i]} | 0 <= i < |ms| :: Possible(sts[i], ms[i]) && sts[i + 1] == Next(sts[i], ms[i])
  }

  lemma OneMoreMove(sts: seq<Store>, ms: seq<Move>, m: Move, st: Store)
    requires IsHistory(sts, ms) && Possible(sts[|ms|], m) && st == Next(sts[|ms|], m)
    ensures IsHistory(sts + [st], ms + [m])
  {
    var sts', ms' := sts + [st], ms + [m];
    forall i | 0 <= i < |ms'| ensures Possible(sts'[i], ms'[i]) && sts'[i + 1] == Next(sts'[i], ms'[i]) {
      if i < |ms| { assert sts'[i] == sts[i] && sts'[i + 1] == sts[i + 1] && ms'[i] == ms[i]; }
    }
  }
}
