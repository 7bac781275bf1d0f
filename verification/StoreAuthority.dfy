/** Who is behind each change of the tables, however the statements of concurrent calls interleave. */
module StoreAuthority {
  import opened Domain
  import opened StoreModel
  import opened StoreThreads
  import opened StoreHistory
  import opened StoreCalls

  /** Move k left task t to be run. */
  ghost predicate Leaves(st: Store, m: Move, t: Task) {
    match m
    case Start(q) => Begin(st.tables, q).1 == More(t)
    case Resume(task) => Continue(st.tables, task).1 == More(t)
  }

  /** The move that left a task in progress. */
  lemma {:induction false} LeftBy(sts: seq<Store>, ms: seq<Move>, n: nat, t: Task) returns (k: nat)
    requires IsHistory(sts, ms) && n <= |ms| && t in sts[n].tasks
    ensures k < n && Leaves(sts[k], ms[k], t) && Possible(sts[k], ms[k])
  {
    if t in sts[n - 1].tasks {
      k := LeftBy(sts, ms, n - 1, t);
    } else {
      k := n - 1;
      NewTask(sts[k], ms[k], t);
    }
  }

  /** The task of a statement that runs was in progress. */
  lemma RunsWaiting(sts: seq<Store>, ms: seq<Move>, n: nat)
    requires IsHistory(sts, ms) && n < |ms| && ms[n].Resume?
    ensures ms[n].task in sts[n].tasks
  {}

  // ---------- Kicks ----------

  lemma LeavesRemoval(st: Store, m: Move, r: RoomId, t: UserId) returns (held: Role)
    requires Leaves(st, m, RemoveTarget(r, t))
    ensures m == Resume(CheckTarget(r, held, t)) && RoleOf(st.tables, r, t).Some?
    ensures held == Owner || (held == Admin && RoleOf(st.tables, r, t) == Some(Member))
  {
    held := m.task.held;
  }

  lemma LeavesTargetCheck(st: Store, m: Move, r: RoomId, held: Role, t: UserId) returns (q: UserId)
    requires Leaves(st, m, CheckTarget(r, held, t))
    ensures m == Start(KickMember(r, q, t)) && q != t && RoleOf(st.tables, r, q) == Some(held)
  {
    q := m.q.requester;
  }

  /** Whenever a kick takes effect, somebody else called for it who was an owner or an admin by then; an admin only
      if the target was a plain member when it was checked. */
  lemma KickAuthority(sts: seq<Store>, ms: seq<Move>, n: nat, r: RoomId, t: UserId) returns (i: nat, j: nat, q: UserId)
    requires IsHistory(sts, ms) && n < |ms| && ms[n] == Resume(RemoveTarget(r, t))
    ensures i < j < n && ms[i] == Start(KickMember(r, q, t)) && q != t
    ensures RoleOf(sts[i].tables, r, q) == Some(Owner) || RoleOf(sts[i].tables, r, q) == Some(Admin)
    ensures ms[j].Resume? && ms[j].task.CheckTarget? && RoleOf(sts[j].tables, r, t).Some?
    ensures RoleOf(sts[i].tables, r, q) == Some(Admin) ==> RoleOf(sts[j].tables, r, t) == Some(Member)
  {
    RunsWaiting(sts, ms, n);
    j := LeftBy(sts, ms, n, RemoveTarget(r, t));
    var held := LeavesRemoval(sts[j], ms[j], r, t);
    i := LeftBy(sts, ms, j, CheckTarget(r, held, t));
    q := LeavesTargetCheck(sts[i], ms[i], r, held, t);
  }

  // ---------- Roles ----------

  lemma LeavesRoleWrite(st: Store, m: Move, r: RoomId, t: UserId, role: Role) returns (q: UserId, held: Role)
    requires Leaves(st, m, WriteRole(r, t, role))
    ensures m == Resume(CheckOwner(r, q, held, t, role)) && (held == Owner || Owns(st.tables, r, q))
  {
    q, held := m.task.requester, m.task.held;
  }

  lemma LeavesOwnerCheck(st: Store, m: Move, r: RoomId, q: UserId, held: Role, t: UserId, role: Role)
    requires Leaves(st, m, CheckOwner(r, q, held, t, role))
    ensures m == Start(SetRole(r, q, t, role)) && role != Owner && RoleOf(st.tables, r, q) == Some(held)
  {}

  /** Whenever a role is set, it is not the owner role, and a member called for it who then had the owner role or owned
      the room when that was checked. */
  lemma RoleAuthority(sts: seq<Store>, ms: seq<Move>, n: nat, r: RoomId, t: UserId, role: Role)
    returns (i: nat, j: nat, q: UserId)
    requires IsHistory(sts, ms) && n < |ms| && ms[n] == Resume(WriteRole(r, t, role))
    ensures role != Owner && i < j < n && ms[i] == Start(SetRole(r, q, t, role)) && RoleOf(sts[i].tables, r, q).Some?
    ensures ms[j].Resume? && ms[j].task.CheckOwner?
    ensures RoleOf(sts[i].tables, r, q) == Some(Owner) || Owns(sts[j].tables, r, q)
  {
    RunsWaiting(sts, ms, n);
    j := LeftBy(sts, ms, n, WriteRole(r, t, role));
    var held;
    q, held := LeavesRoleWrite(sts[j], ms[j], r, t, role);
    i := LeftBy(sts, ms, j, CheckOwner(r, q, held, t, role));
    LeavesOwnerCheck(sts[i], ms[i], r, q, held, t, role);
  }

  // ---------- Rooms ----------

  lemma LeavesRename(st: Store, m: Move, r: RoomId, name: string)
    requires Leaves(st, m, WriteName(r, name))
    ensures m.Start? && m.q.Rename? && m.q.room == r && (m.q.isAdmin || Owns(st.tables, r, m.q.requester))
    ensures name == TrimSpace(m.q.name) && name != ""
  {}

  /** Whenever a room gets a name, an admin of the site or the room's owner called for it, and it is what they wrote
      without the spaces at its ends, and not empty. */
  lemma RenameAuthority(sts: seq<Store>, ms: seq<Move>, n: nat, r: RoomId, name: string) returns (i: nat)
    requires IsHistory(sts, ms) && n < |ms| && ms[n] == Resume(WriteName(r, name))
    ensures i < n && ms[i].Start? && ms[i].q.Rename? && ms[i].q.room == r
    ensures ms[i].q.isAdmin || Owns(sts[i].tables, r, ms[i].q.requester)
    ensures IsTrimmed(ms[i].q.name, name) && name != ""
  {
    RunsWaiting(sts, ms, n);
    i := LeftBy(sts, ms, n, WriteName(r, name));
    LeavesRename(sts[i], ms[i], r, name);
    TrimSpaceExactly(ms[i].q.name, name);
  }

  lemma BeginDropsRoom(s: Tables, q: Request, r: RoomId)
    requires r in s.rooms && r !in Begin(s, q).0.rooms
    ensures q.Delete? && q.room == r && (q.isAdmin || Owns(s, r, q.requester))
  {}

  lemma ContinueDropsNoRoom(s: Tables, t: Task, r: RoomId)
    requires r in s.rooms
    ensures r in Continue(s, t).0.rooms
  {
    if !t.OpenDM? && !t.WriteInvite? && !t.ClaimInvite? && !t.RefuseInvite? && !t.WriteName? { MembersOnly(s, t); }
  }

  /** A room goes only by its owner's call to delete it or by that of an admin of the site. */
  lemma DeleteAuthority(sts: seq<Store>, ms: seq<Move>, n: nat, r: RoomId)
    requires IsHistory(sts, ms) && n < |ms| && r in sts[n].tables.rooms && r !in sts[n + 1].tables.rooms
    ensures ms[n].Start? && ms[n].q.Delete? && ms[n].q.room == r
    ensures ms[n].q.isAdmin || Owns(sts[n].tables, r, ms[n].q.requester)
  {
    assert sts[n + 1] == Next(sts[n], ms[n]);
    if ms[n].Start? {
      BeginDropsRoom(sts[n].tables, ms[n].q, r);
    } else {
      ContinueDropsNoRoom(sts[n].tables, ms[n].task, r);
    }
  }

  // ---------- Answers to invites ----------

  lemma LeavesAnswer(st: Store, m: Move, t: Task, i: InviteId)
    requires Leaves(st, m, t) && ((t.ClaimInvite? && t.invite == i) || t == RefuseInvite(i))
    ensures m.Start? && i in st.tables.invites
    ensures m.q == if t.ClaimInvite? then AcceptInvite(i, st.tables.invites[i].invitee)
                   else DeclineInvite(i, st.tables.invites[i].invitee)
  {}

  /** Whenever an invite is accepted or declined, its invitee called for just that. */
  lemma AnswerAuthority(sts: seq<Store>, ms: seq<Move>, n: nat, i: InviteId) returns (k: nat)
    requires IsHistory(sts, ms) && n < |ms| && i in sts[n].tables.invites && ms[n].Resume?
    requires (ms[n].task.ClaimInvite? && ms[n].task.invite == i) || ms[n].task == RefuseInvite(i)
    ensures k < n
    ensures ms[k] == Start(if ms[n].task.ClaimInvite? then AcceptInvite(i, sts[n].tables.invites[i].invitee)
                           else DeclineInvite(i, sts[n].tables.invites[i].invitee))
  {
    RunsWaiting(sts, ms, n);
    k := LeftBy(sts, ms, n, ms[n].task);
    LeavesAnswer(sts[k], ms[k], ms[n].task, i);
    HistoryEvolves(sts, ms, k, n);
    HistoryLawful(sts, ms, k);
  }
}
