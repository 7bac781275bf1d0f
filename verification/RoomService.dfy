/** The repositories and the room service as the objects that update the database. */
module RoomServices {
  import opened Domain
  import opened StoreModel

  class Database {
    var rooms: map<RoomId, Room>
    var members: map<(RoomId, UserId), Role>
    var invites: map<InviteId, Invite>
    var clock: nat
    ghost var used: set<RoomId>
    ghost var usedInvites: set<InviteId>

    ghost function T(): Tables
      reads this
    {
      Tables(rooms, members, invites, used, usedInvites, clock)
    }

    constructor ()
      ensures T() == NO_ROWS
    {
      rooms, members, invites, clock, used, usedInvites := map[], map[], map[], 0, {}, {};
    }

    method CreateRoom(id: RoomId, room: Room)
      modifies this
      ensures T() == InsertRoom(old(T()), id, room)
    {
      rooms := rooms[id := room];
      used := used + {id};
    }

    /** Upsert; the room must exist, or the foreign key refuses the row. */
    method AddMember(r: RoomId, u: UserId, role: Role) returns (out: Outcome)
      modifies this
      ensures out == if r in old(rooms) then Done else Conflict
      ensures T() == if r in old(rooms) then PutMember(old(T()), r, u, role) else old(T())
    {
      if r in rooms {
        members := members[(r, u) := role];
        out := Done;
      } else {
        out := Conflict;
      }
    }

    method RemoveMember(r: RoomId, u: UserId)
      modifies this
      ensures T() == old(T()).(members := old(members) - {(r, u)})
    {
      members := members - {(r, u)};
    }

    method GetMemberRole(r: RoomId, u: UserId) returns (role: Option<Role>)
      ensures role == if (r, u) in members then Some(members[(r, u)]) else None
    {
      role := if (r, u) in members then Some(members[(r, u)]) else None;
    }

    method SetMemberRole(r: RoomId, u: UserId, role: Role) returns (out: Outcome)
      modifies this
      ensures out == if IsMember(old(T()), r, u) then Done else NotFound
      ensures T() == if IsMember(old(T()), r, u) then PutMember(old(T()), r, u, role) else old(T())
    {
      if (r, u) !in members {
        return NotFound;
      }
      members := members[(r, u) := role];
      out := Done;
    }

    /** DELETE FROM rooms, with its cascades. */
    method DeleteRoom(r: RoomId)
      modifies this
      ensures T() == RemoveRoom(old(T()), r)
    {
      rooms := rooms - {r};
      members := map k | k in members && k.0 != r :: members[k];
      invites := map i | i in invites && invites[i].room != r :: invites[i];
    }

    method RenameRoom(r: RoomId, name: string) returns (out: Outcome)
      modifies this
      ensures out == if r in old(rooms) then Done else NotFound
      ensures T() == if r in old(rooms) then old(T()).(rooms := old(rooms)[r := old(rooms)[r].(name := name)])
              else old(T())
    {
      if r !in rooms {
        return NotFound;
      }
      rooms := rooms[r := rooms[r].(name := name)];
      out := Done;
    }

    /** INSERT into room_invites, refused by the foreign key to rooms and by the unique constraint on room and
        invitee. */
    method CreateInvite(id: InviteId, r: RoomId, inviter: UserId, invitee: UserId) returns (out: Outcome)
      modifies this
      ensures out == if r !in old(rooms) || Invited(old(T()), r, invitee) then Conflict else Done
      ensures T() == if out == Done then InsertInvite(old(T()), id, r, inviter, invitee) else old(T())
    {
      if r !in rooms {
        return Conflict;
      }
      var todo := invites.Keys;
      while todo != {}
        invariant todo <= invites.Keys && T() == old(T())
        invariant forall i <- invites.Keys - todo :: invites[i].room != r || invites[i].invitee != invitee
        decreases |todo|
      {
        var i :| i in todo;
        if invites[i].room == r && invites[i].invitee == invitee {
          return Conflict;
        }
        todo := todo - {i};
      }
      invites := invites[id := Invite(r, inviter, invitee, Pending, clock)];
      usedInvites, clock := usedInvites + {id}, clock + 1;
      out := Done;
    }

    /** UPDATE room_invites SET status WHERE status is pending */
    method Answer(id: InviteId, status: Status) returns (out: Outcome)
      modifies this
      ensures out == if id in old(invites) && old(invites)[id].status == Pending then Done else NotFound
      ensures T() == if out == Done then SetStatus(old(T()), id, status) else old(T())
    {
      if id !in invites || invites[id].status != Pending {
        return NotFound;
      }
      invites := invites[id := invites[id].(status := status)];
      out := Done;
    }

    /** The lookup in front of a new DM; any matching room may be the one returned. */
    method FindDM(a: UserId, b: UserId) returns (found: Option<RoomId>)
      ensures found.Some? ==> IsDMOf(T(), found.value, a, b)
      ensures found.None? ==> forall r <- rooms :: !IsDMOf(T(), r, a, b)
    {
      var todo := rooms.Keys;
      while todo != {}
        invariant todo <= rooms.Keys
        invariant forall r <- rooms.Keys - todo :: !IsDMOf(T(), r, a, b)
        decreases |todo|
      {
        var r :| r in todo;
        if rooms[r].kind == DM && (r, a) in members && (r, b) in members {
          return Some(r);
        }
        todo := todo - {r};
      }
      found := None;
    }

    /** Finds the DM of two users or inserts it with both members in one transaction. */
    method GetOrCreateDM(id: RoomId, a: UserId, b: UserId) returns (room: Option<RoomId>, ghost found: Option<RoomId>)
      requires id !in used
      modifies this
      ensures Enabled(old(T()), Request.GetOrCreateDM(id, a, b, found))
      ensures T() == DMStep(old(T()), id, a, b, found).0
      ensures room == if found.Some? then found else if a == b then None else Some(id)
    {
      var existing := FindDM(a, b);
      found := existing;
      if existing.Some? {
        return existing, found;
      }
      if a == b {
        return None, found;
      }
      CreateRoom(id, Room(DM, a, ""));
      members := members[(id, a) := Member][(id, b) := Member];
      room := Some(id);
    }
  }

  class RoomService {
    const db: Database

    constructor (db: Database)
      ensures this.db == db
    {
      this.db := db;
    }

    method Create(id: RoomId, name: string, kind: RoomKind, owner: UserId) returns (out: Outcome)
      modifies db
      ensures (db.T(), out) == CreateStep(old(db.T()), id, name, kind, owner)
    {
      var trimmed := TrimSpace(name);
      if trimmed == "" {
        return BadRequest;
      }
      db.CreateRoom(id, Room(kind, owner, trimmed));
      var ignored := db.AddMember(id, owner, Owner);
      out := Done;
    }

    method Delete(r: RoomId, requester: UserId, isAdmin: bool) returns (out: Outcome)
      modifies db
      ensures (db.T(), out) == DeleteStep(old(db.T()), r, requester, isAdmin)
    {
      if !isAdmin && (r !in db.rooms || db.rooms[r].owner != requester) {
        return Forbidden;
      }
      db.DeleteRoom(r);
      out := Done;
    }

    method InviteUser(id: InviteId, r: RoomId, inviter: UserId, invitee: UserId) returns (out: Outcome)
      modifies db
      ensures (db.T(), out) == InviteStep(old(db.T()), id, r, inviter, invitee)
    {
      if r !in db.rooms {
        return NotFound;
      }
      if db.rooms[r].kind != Private {
        return BadRequest;
      }
      if db.rooms[r].owner != inviter && (r, inviter) !in db.members {
        return Forbidden;
      }
      out := db.CreateInvite(id, r, inviter, invitee);
    }

    method AcceptInvite(id: InviteId, user: UserId) returns (out: Outcome)
      requires forall i <- db.invites :: db.invites[i].room in db.rooms
      modifies db
      ensures (db.T(), out) == AcceptStep(old(db.T()), id, user)
    {
      if id !in db.invites {
        return NotFound;
      }
      if db.invites[id].invitee != user {
        return Forbidden;
      }
      var r := db.invites[id].room;
      out := db.Answer(id, Accepted);
      if out == Done {
        out := db.AddMember(r, user, Member);
      }
    }

    method DeclineInvite(id: InviteId, user: UserId) returns (out: Outcome)
      modifies db
      ensures (db.T(), out) == DeclineStep(old(db.T()), id, user)
    {
      if id !in db.invites {
        return NotFound;
      }
      if db.invites[id].invitee != user {
        return Forbidden;
      }
      out := db.Answer(id, Declined);
    }

    method SetRole(r: RoomId, requester: UserId, target: UserId, role: Role) returns (out: Outcome)
      modifies db
      ensures (db.T(), out) == SetRoleStep(old(db.T()), r, requester, target, role)
    {
      if role == Owner {
        return Forbidden;
      }
      var requesterRole := db.GetMemberRole(r, requester);
      if requesterRole.None? {
        return Forbidden;
      }
      if r !in db.rooms {
        return NotFound;
      }
      if requesterRole.value != Owner && db.rooms[r].owner != requester {
        return Forbidden;
      }
      out := db.SetMemberRole(r, target, role);
    }

    method KickMember(r: RoomId, requester: UserId, target: UserId) returns (out: Outcome)
      modifies db
      ensures (db.T(), out) == KickStep(old(db.T()), r, requester, target)
    {
      if requester == target {
        return BadRequest;
      }
      var requesterRole := db.GetMemberRole(r, requester);
      if requesterRole.None? {
        return Forbidden;
      }
      var targetRole := db.GetMemberRole(r, target);
      if targetRole.None? {
        return NotFound;
      }
      match requesterRole.value {
        case Owner =>
        case Admin => if targetRole.value != Member { return Forbidden; }
        case Member => return Forbidden;
      }
      db.RemoveMember(r, target);
      out := Done;
    }

    /** What the hub asks of the store when a client joins a room. */
    method JoinFromHub(r: RoomId, user: UserId) returns (out: Outcome)
      modifies db
      ensures (db.T(), out) == HubJoinStep(old(db.T()), r, user)
    {
      if r !in db.rooms {
        return NotFound;
      }
      var room, member := db.rooms[r], (r, user) in db.members;
      match room.kind {
        case Public => out := db.AddMember(r, user, Member);
        case Voice => out := db.AddMember(r, user, Member);
        case DM => out := if member then Done else Forbidden;
        case Private => out := if room.owner == user || member then Done else Forbidden;
      }
    }

    /** Returns the room as it now is. */
    method Rename(r: RoomId, requester: UserId, name: string, isAdmin: bool)
      returns (out: Outcome, renamed: Option<Room>)
      modifies db
      ensures (db.T(), out) == RenameStep(old(db.T()), r, requester, name, isAdmin)
      ensures renamed == if out == Done && r in db.rooms then Some(db.rooms[r]) else None
    {
      renamed := None;
      var trimmed := TrimSpace(name);
      if trimmed == "" {
        return BadRequest, None;
      }
      if r !in db.rooms {
        return NotFound, None;
      }
      var room := db.rooms[r];
      if !isAdmin && room.owner != requester {
        return Forbidden, None;
      }
      out := db.RenameRoom(r, trimmed);
      renamed := Some(room.(name := trimmed));
    }
  }
}
