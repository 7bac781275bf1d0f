/** The tables behind rooms, members and invites, and the room service's calls as steps on them. */
module StoreModel {
  import opened Domain

  type InviteId = nat

  datatype Role = Owner | Admin | Member
  datatype Status = Pending | Accepted | Declined

  datatype Room = Room(kind: RoomKind, owner: UserId, name: string)

  /** `at` is the invite's place in the order of creation. */
  datatype Invite = Invite(room: RoomId, inviter: UserId, invitee: UserId, status: Status, at: nat)

  datatype Outcome = Done | BadRequest | NotFound | Forbidden | Conflict

  /** The last two record the ids ever handed out and the invites ever created. */
  datatype Tables = Tables(rooms: map<RoomId, Room>, members: map<(RoomId, UserId), Role>,
                           invites: map<InviteId, Invite>,
                           used: set<RoomId>, usedInvites: set<InviteId>, clock: nat)

  const NO_ROWS := Tables(map[], map[], map[], {}, {}, 0)

  // ---------- Names ----------

  /** unicode.IsSpace */
  predicate IsSpace(c: char) {
    var n := c as int;
    9 <= n <= 13 || n in {32, 0x85, 0xA0, 0x1680, 0x2028, 0x2029, 0x202F, 0x205F, 0x3000} || 0x2000 <= n <= 0x200A
  }

  /** strings.TrimSpace */
  function TrimSpace(s: string): string {
    if s == "" then s
    else if IsSpace(s[0]) then TrimSpace(s[1..])
    else if IsSpace(s[|s| - 1]) then TrimSpace(s[..|s| - 1])
    else s
  }

  // ---------- Statements on the tables ----------

  function IsMember(s: Tables, r: RoomId, u: UserId): bool {
    (r, u) in s.members
  }

  /** INSERT ... ON CONFLICT DO UPDATE SET role */
  function PutMember(s: Tables, r: RoomId, u: UserId, role: Role): Tables {
    s.(members := s.members[(r, u) := role])
  }

  function InsertRoom(s: Tables, id: RoomId, room: Room): Tables {
    s.(rooms := s.rooms[id := room], used := s.used + {id})
  }

  /** DELETE FROM rooms, which cascades to members and invites. */
  ghost function RemoveRoom(s: Tables, id: RoomId): Tables {
    s.(rooms := s.rooms - {id},
       members := map k | k in s.members && k.0 != id :: s.members[k],
       invites := map i | i in s.invites && s.invites[i].room != id :: s.invites[i])
  }

  /** The unique constraint on (room, invitee). */
  ghost predicate Invited(s: Tables, r: RoomId, u: UserId) {
    exists i :: i in s.invites && s.invites[i].room == r && s.invites[i].invitee == u
  }

  function InsertInvite(s: Tables, id: InviteId, r: RoomId, inviter: UserId, invitee: UserId): Tables {
    s.(invites := s.invites[id := Invite(r, inviter, invitee, Pending, s.clock)],
       usedInvites := s.usedInvites + {id}, clock := s.clock + 1)
  }

  function SetStatus(s: Tables, id: InviteId, status: Status): Tables
    requires id in s.invites
  {
    s.(invites := s.invites[id := s.invites[id].(status := status)])
  }

  ghost predicate IsDMOf(s: Tables, r: RoomId, a: UserId, b: UserId) {
    r in s.rooms && s.rooms[r].kind == DM && IsMember(s, r, a) && IsMember(s, r, b)
  }

  // ---------- Service calls ----------

  /** New ids come from the uuid generator; `found` is the row that LIMIT 1 picked. */
  datatype Request =
    | Create(id: RoomId, name: string, kind: RoomKind, owner: UserId)
    | Delete(room: RoomId, requester: UserId, isAdmin: bool)
    | InviteUser(invite: InviteId, room: RoomId, inviter: UserId, invitee: UserId)
    | AcceptInvite(invite: InviteId, user: UserId)
    | DeclineInvite(invite: InviteId, user: UserId)
    | SetRole(room: RoomId, requester: UserId, target: UserId, role: Role)
    | KickMember(room: RoomId, requester: UserId, target: UserId)
    | HubJoin(room: RoomId, user: UserId)
    | Rename(room: RoomId, requester: UserId, name: string, isAdmin: bool)
    | GetOrCreateDM(id: RoomId, a: UserId, b: UserId, found: Option<RoomId>)

  ghost function CreateStep(s: Tables, id: RoomId, name: string, kind: RoomKind, owner: UserId): (Tables, Outcome) {
    if TrimSpace(name) == "" then (s, BadRequest)
    else (PutMember(InsertRoom(s, id, Room(kind, owner, TrimSpace(name))), id, owner, Owner), Done)
  }

  ghost function DeleteStep(s: Tables, r: RoomId, requester: UserId, isAdmin: bool): (Tables, Outcome) {
    if isAdmin || (r in s.rooms && s.rooms[r].owner == requester) then (RemoveRoom(s, r), Done)
    else (s, Forbidden)
  }

  ghost function InviteStep(s: Tables, id: InviteId, r: RoomId, inviter: UserId, invitee: UserId): (Tables, Outcome) {
    if r !in s.rooms then (s, NotFound)
    else if s.rooms[r].kind != Private then (s, BadRequest)
    else if s.rooms[r].owner != inviter && !IsMember(s, r, inviter) then (s, Forbidden)
    else if Invited(s, r, invitee) then (s, Conflict)
    else (InsertInvite(s, id, r, inviter, invitee), Done)
  }

  ghost function AcceptStep(s: Tables, id: InviteId, user: UserId): (Tables, Outcome) {
    if id !in s.invites then (s, NotFound)
    else if s.invites[id].invitee != user then (s, Forbidden)
    else if s.invites[id].status != Pending then (s, NotFound)
    else (PutMember(SetStatus(s, id, Accepted), s.invites[id].room, user, Member), Done)
  }

  ghost function DeclineStep(s: Tables, id: InviteId, user: UserId): (Tables, Outcome) {
    if id !in s.invites then (s, NotFound)
    else if s.invites[id].invitee != user then (s, Forbidden)
    else if s.invites[id].status != Pending then (s, NotFound)
    else (SetStatus(s, id, Declined), Done)
  }

  ghost function SetRoleStep(s: Tables, r: RoomId, requester: UserId, target: UserId, role: Role): (Tables, Outcome) {
    if role == Owner then (s, Forbidden)
    else if !IsMember(s, r, requester) then (s, Forbidden)
    else if r !in s.rooms then (s, NotFound)
    else if s.members[(r, requester)] != Owner && s.rooms[r].owner != requester then (s, Forbidden)
    else if !IsMember(s, r, target) then (s, NotFound)
    else (PutMember(s, r, target, role), Done)
  }

  /** Whether a member of the first role may kick one of the second. */
  predicate MayKick(requester: Role, target: Role) {
    requester == Owner || (requester == Admin && target == Member)
  }

  ghost function KickStep(s: Tables, r: RoomId, requester: UserId, target: UserId): (Tables, Outcome) {
    if requester == target then (s, BadRequest)
    else if !IsMember(s, r, requester) then (s, Forbidden)
    else if !IsMember(s, r, target) then (s, NotFound)
    else if !MayKick(s.members[(r, requester)], s.members[(r, target)]) then (s, Forbidden)
    else (s.(members := s.members - {(r, target)}), Done)
  }

  /** The store's part of the hub's joinRoom: joining a public or voice room upserts a member row. */
  ghost function HubJoinStep(s: Tables, r: RoomId, user: UserId): (Tables, Outcome) {
    if r !in s.rooms then (s, NotFound)
    else match s.rooms[r].kind
      case Public => (PutMember(s, r, user, Member), Done)
      case Voice => (PutMember(s, r, user, Member), Done)
      case DM => (s, if IsMember(s, r, user) then Done else Forbidden)
      case Private => (s, if s.rooms[r].owner == user || IsMember(s, r, user) then Done else Forbidden)
  }

  ghost function RenameStep(s: Tables, r: RoomId, requester: UserId, name: string, isAdmin: bool): (Tables, Outcome) {
    if TrimSpace(name) == "" then (s, BadRequest)
    else if r !in s.rooms then (s, NotFound)
    else if !isAdmin && s.rooms[r].owner != requester then (s, Forbidden)
    else (s.(rooms := s.rooms[r := s.rooms[r].(name := TrimSpace(name))]), Done)
  }

  /** Two equal users violate the members' primary key, and the transaction is rolled back. */
  ghost function DMStep(s: Tables, id: RoomId, a: UserId, b: UserId, found: Option<RoomId>): (Tables, Outcome) {
    if found.Some? then (s, Done)
    else if a == b then (s, Conflict)
    else (PutMember(PutMember(InsertRoom(s, id, Room(DM, a, "")), id, a, Member), id, b, Member), Done)
  }

  ghost function Call(s: Tables, q: Request): (Tables, Outcome) {
    match q
    case Create(id, name, kind, owner) => CreateStep(s, id, name, kind, owner)
    case Delete(r, requester, isAdmin) => DeleteStep(s, r, requester, isAdmin)
    case InviteUser(id, r, inviter, invitee) => InviteStep(s, id, r, inviter, invitee)
    case AcceptInvite(id, user) => AcceptStep(s, id, user)
    case DeclineInvite(id, user) => DeclineStep(s, id, user)
    case SetRole(r, requester, target, role) => SetRoleStep(s, r, requester, target, role)
    case KickMember(r, requester, target) => KickStep(s, r, requester, target)
    case HubJoin(r, user) => HubJoinStep(s, r, user)
    case Rename(r, requester, name, isAdmin) => RenameStep(s, r, requester, name, isAdmin)
    case GetOrCreateDM(id, a, b, found) => DMStep(s, id, a, b, found)
  }

  /** A generated room id is new, and the DM lookup returns a matching room if there is one. */
  ghost predicate Enabled(s: Tables, q: Request) {
    match q
    case Create(id, _, _, _) => id !in s.used
    case GetOrCreateDM(_, a, b, found) =>
      if found.Some? then IsDMOf(s, found.value, a, b) else forall r <- s.rooms :: !IsDMOf(s, r, a, b)
    case _ => true
  }
}
