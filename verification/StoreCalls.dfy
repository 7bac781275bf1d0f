/** What the calls of the room service mean when they run alone: who may make them, what each answer says, and what
    becomes of each row of the tables. Roles and conditions are spelled out here and not taken from the steps. */
module StoreCalls {
  import opened Domain
  import opened StoreModel

  // ---------- Names ----------

  predicate AllSpace(s: string) {
    forall c <- s :: IsSpace(c)
  }

  /** t is s without the spaces at its ends: nothing but spaces is cut off, and none is left at either end. */
  ghost predicate IsTrimmed(s: string, t: string) {
    && (t == "" || (!IsSpace(t[0]) && !IsSpace(t[|t| - 1])))
    && exists a: string, b: string :: AllSpace(a) && AllSpace(b) && s == a + t + b
  }

  lemma CutFirst(s: string, a: string, t: string, b: string)
    requires s == a + t + b && a != ""
    ensures s[0] == a[0] && s[1..] == a[1..] + t + b
  {}

  lemma CutLast(s: string, a: string, t: string, b: string)
    requires s == a + t + b && b != ""
    ensures s[|s| - 1] == b[|b| - 1] && s[..|s| - 1] == a + t + b[..|b| - 1]
  {}

  lemma {:induction false} TrimCuts(s: string) returns (a: string, b: string)
    ensures AllSpace(a) && AllSpace(b) && s == a + TrimSpace(s) + b
    decreases |s|
  {
    a, b := "", "";
    if s != "" && IsSpace(s[0]) {
      a, b := TrimCuts(s[1..]);
      assert s == [s[0]] + s[1..];
      a := [s[0]] + a;
    } else if s != "" && IsSpace(s[|s| - 1]) {
      a, b := TrimCuts(s[..|s| - 1]);
      assert s == s[..|s| - 1] + [s[|s| - 1]];
      b := b + [s[|s| - 1]];
    }
  }

  lemma {:induction false} TrimEnds(s: string)
    ensures var t := TrimSpace(s); t == "" || (!IsSpace(t[0]) && !IsSpace(t[|t| - 1]))
    decreases |s|
  {
    if s != "" && IsSpace(s[0]) { TrimEnds(s[1..]); }
    else if s != "" && IsSpace(s[|s| - 1]) { TrimEnds(s[..|s| - 1]); }
  }

  lemma {:induction false} BlankIsTrimmedAway(s: string)
    requires AllSpace(s)
    ensures TrimSpace(s) == ""
    decreases |s|
  {
    if s != "" { BlankIsTrimmedAway(s[1..]); }
  }

  lemma {:induction false} TrimUnique(s: string, a: string, t: string, b: string)
    requires AllSpace(a) && AllSpace(b) && s == a + t + b
    requires t == "" || (!IsSpace(t[0]) && !IsSpace(t[|t| - 1]))
    ensures TrimSpace(s) == t
    decreases |s|
  {
    if t == "" {
      assert s == a + b;
      BlankIsTrimmedAway(s);
    } else if a != "" {
      CutFirst(s, a, t, b);
      assert AllSpace(a[1..]) && a[0] in a;
      TrimUnique(s[1..], a[1..], t, b);
    } else if b != "" {
      CutLast(s, a, t, b);
      assert AllSpace(b[..|b| - 1]) && b[|b| - 1] in b;
      assert s[0] == t[0];
      TrimUnique(s[..|s| - 1], a, t, b[..|b| - 1]);
    } else {
      assert s == t;
    }
  }

  /** TrimSpace returns the one string that is the name without the spaces at its ends. */
  lemma TrimSpaceExactly(s: string, t: string)
    ensures t == TrimSpace(s) <==> IsTrimmed(s, t)
  {
    if t == TrimSpace(s) {
      var a, b := TrimCuts(s);
      TrimEnds(s);
    } else if IsTrimmed(s, t) {
      var a: string, b: string :| AllSpace(a) && AllSpace(b) && s == a + t + b;
      TrimUnique(s, a, t, b);
    }
  }

  lemma BlankIff(s: string)
    ensures TrimSpace(s) == "" <==> AllSpace(s)
  {
    if AllSpace(s) { BlankIsTrimmedAway(s); }
    if TrimSpace(s) == "" {
      var a, b := TrimCuts(s);
      assert s == a + b;
    }
  }

  // ---------- Rows ----------

  /** The role of u in r, if it is a member. */
  function RoleOf(s: Tables, r: RoomId, u: UserId): Option<Role> {
    if (r, u) in s.members then Some(s.members[(r, u)]) else None
  }

  function RoomOf(s: Tables, r: RoomId): Option<Room> {
    if r in s.rooms then Some(s.rooms[r]) else None
  }

  function InviteOf(s: Tables, i: InviteId): Option<Invite> {
    if i in s.invites then Some(s.invites[i]) else None
  }

  predicate Owns(s: Tables, r: RoomId, u: UserId) {
    r in s.rooms && s.rooms[r].owner == u
  }

  predicate IsOpen(kind: RoomKind) {
    kind == Public || kind == Voice
  }

  // ---------- Answers ----------

  /** When a call is done. */
  ghost predicate Succeeds(s: Tables, q: Request) {
    match q
    case Create(_, name, _, _) => !AllSpace(name)
    case Delete(r, requester, isAdmin) => isAdmin || Owns(s, r, requester)
    case InviteUser(_, r, inviter, invitee) =>
      && r in s.rooms && s.rooms[r].kind == Private && (Owns(s, r, inviter) || RoleOf(s, r, inviter).Some?)
      && forall i <- s.invites :: s.invites[i].room != r || s.invites[i].invitee != invitee
    case AcceptInvite(i, user) => i in s.invites && s.invites[i].invitee == user && s.invites[i].status == Pending
    case DeclineInvite(i, user) => i in s.invites && s.invites[i].invitee == user && s.invites[i].status == Pending
    case SetRole(r, requester, target, role) =>
      && role != Owner && r in s.rooms && RoleOf(s, r, target).Some?
      && (RoleOf(s, r, requester) == Some(Owner) || (RoleOf(s, r, requester).Some? && Owns(s, r, requester)))
    case KickMember(r, requester, target) =>
      && requester != target
      && ((RoleOf(s, r, requester) == Some(Owner) && RoleOf(s, r, target).Some?)
          || (RoleOf(s, r, requester) == Some(Admin) && RoleOf(s, r, target) == Some(Member)))
    case HubJoin(r, user) =>
      r in s.rooms && (IsOpen(s.rooms[r].kind) || RoleOf(s, r, user).Some?
                       || (s.rooms[r].kind == Private && Owns(s, r, user)))
    case Rename(r, requester, name, isAdmin) => !AllSpace(name) && r in s.rooms && (isAdmin || Owns(s, r, requester))
    case GetOrCreateDM(_, a, b, found) => found.Some? || a != b
  }

  /** What the call asks for makes no sense: a blank name, an invite to a room that is not private, kicking oneself. */
  ghost predicate IsSenseless(s: Tables, q: Request) {
    || ((q.Create? || q.Rename?) && AllSpace(q.name))
    || (q.InviteUser? && q.room in s.rooms && s.rooms[q.room].kind != Private)
    || (q.KickMember? && q.requester == q.target)
  }

  /** A room, an invite that is still pending, or a target member is missing, to somebody who may know that. */
  ghost predicate IsMissing(s: Tables, q: Request) {
    || ((q.InviteUser? || q.HubJoin? || (q.Rename? && !AllSpace(q.name))) && q.room !in s.rooms)
    || ((q.AcceptInvite? || q.DeclineInvite?) &&
          (q.invite in s.invites ==> s.invites[q.invite].invitee == q.user && s.invites[q.invite].status != Pending))
    || (q.SetRole? && q.role != Owner && RoleOf(s, q.room, q.requester).Some?
        && (q.room in s.rooms ==>
              && (RoleOf(s, q.room, q.requester) == Some(Owner) || Owns(s, q.room, q.requester))
              && RoleOf(s, q.room, q.target).None?))
    || (q.KickMember? && q.requester != q.target && RoleOf(s, q.room, q.requester).Some?
        && RoleOf(s, q.room, q.target).None?)
  }

  /** The row is there already: a second invite of the same user to the same room, or a DM of a user with itself. */
  ghost predicate Clashes(s: Tables, q: Request) {
    || (q.InviteUser? && q.room in s.rooms && s.rooms[q.room].kind == Private
        && (Owns(s, q.room, q.inviter) || RoleOf(s, q.room, q.inviter).Some?) && Invited(s, q.room, q.invitee))
    || (q.GetOrCreateDM? && q.found.None? && q.a == q.b)
  }

  /** The exact meaning of every answer. What is left is forbidden. */
  lemma AnswerMeans(s: Tables, q: Request)
    ensures var out := Call(s, q).1;
            && (out == Done <==> Succeeds(s, q))
            && (out == BadRequest <==> IsSenseless(s, q))
            && (out == NotFound <==> IsMissing(s, q))
            && (out == Conflict <==> Clashes(s, q))
  {
    if q.Create? || q.Rename? { BlankIff(q.name); }
  }

  /** A call that is not done changes nothing. */
  lemma RefusedChangesNothing(s: Tables, q: Request)
    requires !Succeeds(s, q)
    ensures Call(s, q).0 == s
  {
    if q.Create? || q.Rename? { BlankIff(q.name); }
  }

  // ---------- What becomes of the rows ----------

  ghost predicate OpensDM(q: Request, r: RoomId) {
    q.GetOrCreateDM? && q.found.None? && q.id == r
  }

  /** The role of u in r after a call that is done. */
  ghost function RoleAfter(s: Tables, q: Request, r: RoomId, u: UserId): Option<Role> {
    if q.Delete? && q.room == r then None
    else if q.KickMember? && q.room == r && q.target == u then None
    else if q.SetRole? && q.room == r && q.target == u then Some(q.role)
    else if q.Create? && q.id == r && q.owner == u then Some(Owner)
    else if q.AcceptInvite? && q.user == u && q.invite in s.invites && s.invites[q.invite].room == r then Some(Member)
    else if q == HubJoin(r, u) && r in s.rooms && IsOpen(s.rooms[r].kind) then Some(Member)
    else if OpensDM(q, r) && (q.a == u || q.b == u) then Some(Member)
    else RoleOf(s, r, u)
  }

  lemma CallRoles(s: Tables, q: Request, r: RoomId, u: UserId)
    requires Succeeds(s, q)
    ensures RoleOf(Call(s, q).0, r, u) == RoleAfter(s, q, r, u)
  {
    if q.Create? { BlankIff(q.name); }
  }

  /** Invite i after a call that is done. */
  ghost function InviteAfter(s: Tables, q: Request, i: InviteId): Option<Invite> {
    if q.InviteUser? && q.invite == i then Some(Invite(q.room, q.inviter, q.invitee, Pending, s.clock))
    else if i !in s.invites || (q.Delete? && q.room == s.invites[i].room) then None
    else if q.AcceptInvite? && q.invite == i then Some(s.invites[i].(status := Accepted))
    else if q.DeclineInvite? && q.invite == i then Some(s.invites[i].(status := Declined))
    else Some(s.invites[i])
  }

  lemma CallInvites(s: Tables, q: Request, i: InviteId)
    requires Succeeds(s, q)
    ensures InviteOf(Call(s, q).0, i) == InviteAfter(s, q, i)
  {}

  /** What a call that is done makes of room r: a new room has the trimmed name, a rename changes nothing but the name,
      and nothing else touches a room but its deletion. */
  lemma CallRooms(s: Tables, q: Request, r: RoomId)
    requires Succeeds(s, q)
    ensures var before, after := RoomOf(s, r), RoomOf(Call(s, q).0, r);
            if q.Create? && q.id == r then
              && after.Some? && after.value.kind == q.kind && after.value.owner == q.owner
              && IsTrimmed(q.name, after.value.name)
            else if OpensDM(q, r) then after == Some(Room(DM, q.a, ""))
            else if q.Delete? && q.room == r then after == None
            else if q.Rename? && q.room == r then
              && before.Some? && after.Some? && after.value == before.value.(name := after.value.name)
              && IsTrimmed(q.name, after.value.name)
            else after == before
  {
    if q.Create? || q.Rename? {
      BlankIff(q.name);
      TrimSpaceExactly(q.name, TrimSpace(q.name));
    }
  }
}
