/** The converse of OwnerRoleNeverForged: when the owner of a room holds the owner role. It is false that they always
    do: whatever writes or deletes the owner's member row takes the role away, and the service lets several calls do
    so. */
module StoreOwners {
  import opened Domain
  import opened StoreModel
  import opened StoreThreads
  import opened StoreHistory

  ghost predicate OwnerRow(s: Tables, r: RoomId, u: UserId) {
    (r, u) in s.members && s.members[(r, u)] == Owner
  }

  /** The statements that take the owner role from u in r. */
  ghost predicate Demotes(m: Move, r: RoomId, u: UserId) {
    m.Resume? &&
    (|| m.task == PutJoiner(r, u)
     || m.task == PutInvitee(r, u)
     || m.task == RemoveTarget(r, u)
     || (m.task.WriteRole? && m.task.room == r && m.task.target == u))
  }

  // ---------- One statement ----------

  lemma BeginOwnerRow(s: Tables, q: Request, r: RoomId, u: UserId)
    requires Lawful(s) && Enabled(s, q) && r in Begin(s, q).0.rooms
    ensures OwnerRow(Begin(s, q).0, r, u) <==> OwnerRow(s, r, u)
  {
    if !q.Create? && !q.Delete? { assert Begin(s, q).0 == s; }
  }

  lemma ContinueOwnerRow(s: Tables, t: Task, r: RoomId, u: UserId)
    requires Lawful(s) && Justified(s, t) && r in Continue(s, t).0.rooms
    requires t.OpenDM? ==> t.id !in s.used
    ensures OwnerRow(Continue(s, t).0, r, u)
       <==> t == PutOwner(r, u) || (OwnerRow(s, r, u) && !Demotes(Resume(t), r, u))
  {
    if KeepsMembers(t) { MembersKept(s, t); } else { WriterOwnerRow(s, t, r, u); }
  }

  lemma WriterOwnerRow(s: Tables, t: Task, r: RoomId, u: UserId)
    requires Lawful(s) && Justified(s, t) && r in Continue(s, t).0.rooms && !KeepsMembers(t)
    requires t.OpenDM? ==> t.id !in s.used
    ensures OwnerRow(Continue(s, t).0, r, u)
       <==> t == PutOwner(r, u) || (OwnerRow(s, r, u) && !Demotes(Resume(t), r, u))
  {}

  ghost predicate KeepsMembers(t: Task) {
    t.CheckInviter? || t.WriteInvite? || t.ClaimInvite? || t.RefuseInvite? || t.CheckOwner? || t.CheckTarget?
    || t.CheckJoiner? || t.WriteName?
  }

  lemma MembersKept(s: Tables, t: Task)
    requires KeepsMembers(t)
    ensures Continue(s, t).0.members == s.members
  {}

  /** After any move, u holds the owner role of r exactly if the move gave it, or u held it and the move did not take
      it. */
  lemma OwnerRowAfter(st: Store, m: Move, r: RoomId, u: UserId)
    requires Lawful(st.tables) && AllJustified(st) && Possible(st, m) && r in Next(st, m).tables.rooms
    ensures OwnerRow(Next(st, m).tables, r, u)
       <==> m == Resume(PutOwner(r, u)) || (OwnerRow(st.tables, r, u) && !Demotes(m, r, u))
  {
    if m.Start? { BeginOwnerRow(st.tables, m.q, r, u); } else { ContinueOwnerRow(st.tables, m.task, r, u); }
  }

  // ---------- Histories ----------

  /** The creator's row was written before move n and nothing has taken the role since. */
  ghost predicate OwnedSince(ms: seq<Move>, n: nat, r: RoomId, u: UserId)
    requires n <= |ms|
  {
    exists j :: 0 <= j < n && ms[j] == Resume(PutOwner(r, u)) && KeptBetween(ms, j + 1, n, r, u)
  }

  ghost predicate KeptBetween(ms: seq<Move>, m: nat, n: nat, r: RoomId, u: UserId)
    requires n <= |ms|
  {
    forall k | m <= k < n :: !Demotes(ms[k], r, u)
  }

  lemma OwnedOneMore(ms: seq<Move>, n: nat, r: RoomId, u: UserId)
    requires 0 < n <= |ms|
    ensures OwnedSince(ms, n, r, u)
       <==> ms[n - 1] == Resume(PutOwner(r, u)) || (OwnedSince(ms, n - 1, r, u) && !Demotes(ms[n - 1], r, u))
  {
    if OwnedSince(ms, n - 1, r, u) && !Demotes(ms[n - 1], r, u) {
      var j :| 0 <= j < n - 1 && ms[j] == Resume(PutOwner(r, u)) && KeptBetween(ms, j + 1, n - 1, r, u);
      assert KeptBetween(ms, j + 1, n, r, u);
    }
    if ms[n - 1] == Resume(PutOwner(r, u)) { assert KeptBetween(ms, n, n, r, u); }
    if OwnedSince(ms, n, r, u) {
      var j :| 0 <= j < n && ms[j] == Resume(PutOwner(r, u)) && KeptBetween(ms, j + 1, n, r, u);
      if j < n - 1 { assert KeptBetween(ms, j + 1, n - 1, r, u) && !Demotes(ms[n - 1], r, u); }
    }
  }

  /** A room that appears now was never owned before. */
  lemma NewRoomNotOwned(sts: seq<Store>, ms: seq<Move>, n: nat, r: RoomId, u: UserId)
    requires IsHistory(sts, ms) && n < |ms| && r !in sts[n].tables.rooms && r in sts[n + 1].tables.rooms
    ensures !OwnedSince(ms, n, r, u) && !OwnerRow(sts[n].tables, r, u)
  {
    HistoryLawful(sts, ms, n);
    MoveEvolves(sts[n], ms[n]);
    if OwnedSince(ms, n, r, u) { OwnedRoomIsUsed(sts, ms, n, r, u); }
  }

  lemma OwnedRoomIsUsed(sts: seq<Store>, ms: seq<Move>, n: nat, r: RoomId, u: UserId)
    requires IsHistory(sts, ms) && n <= |ms| && OwnedSince(ms, n, r, u)
    ensures r in sts[n].tables.used
  {
    var j :| 0 <= j < n && ms[j] == Resume(PutOwner(r, u)) && KeptBetween(ms, j + 1, n, r, u);
    HistoryLawful(sts, ms, j);
    assert Justified(sts[j].tables, PutOwner(r, u));
    HistoryEvolves(sts, ms, j, n);
  }

  lemma OwnerRowOneMore(sts: seq<Store>, ms: seq<Move>, n: nat, r: RoomId, u: UserId)
    requires IsHistory(sts, ms) && 0 < n <= |ms| && r in sts[n].tables.rooms
    requires OwnerRow(sts[n - 1].tables, r, u) <==> OwnedSince(ms, n - 1, r, u)
    ensures OwnerRow(sts[n].tables, r, u) <==> OwnedSince(ms, n, r, u)
  {
    HistoryLawful(sts, ms, n - 1);
    assert Possible(sts[n - 1], ms[n - 1]) && sts[n] == Next(sts[n - 1], ms[n - 1]);
    OwnerRowAfter(sts[n - 1], ms[n - 1], r, u);
    OwnedOneMore(ms, n, r, u);
  }

  /** In every interleaved history: u holds the owner role of r exactly if the row of r's creation was written and no
      statement has taken the role since. */
  lemma {:induction false} OwnerRowIff(sts: seq<Store>, ms: seq<Move>, n: nat, r: RoomId, u: UserId)
    requires IsHistory(sts, ms) && n <= |ms| && r in sts[n].tables.rooms
    ensures OwnerRow(sts[n].tables, r, u) <==> OwnedSince(ms, n, r, u)
  {
    if n > 0 {
      if r in sts[n - 1].tables.rooms {
        OwnerRowIff(sts, ms, n - 1, r, u);
      } else {
        NewRoomNotOwned(sts, ms, n - 1, r, u);
      }
      OwnerRowOneMore(sts, ms, n, r, u);
    }
  }

  /** The row of a room's creation is written once: never while the owner holds the role. */
  ghost predicate OneCreation(st: Store) {
    forall r: RoomId, u: UserId | PutOwner(r, u) in st.tasks && r in st.tables.rooms ::
      st.tasks[PutOwner(r, u)] == 1 && !OwnerRow(st.tables, r, u)
  }

  lemma OnlyCreatesPut(st: Store, m: Move, r: RoomId, u: UserId)
    requires Possible(st, m)
    ensures Next(st, m).tasks[PutOwner(r, u)]
         <= st.tasks[PutOwner(r, u)] - (if m == Resume(PutOwner(r, u)) then 1 else 0)
            || (m.Start? && m.q.Create? && m.q.id == r && r !in st.tables.used
                && Next(st, m).tasks == st.tasks + multiset{PutOwner(r, u)})
  {}

  lemma OneCreationFor(st: Store, m: Move, r: RoomId, u: UserId)
    requires Lawful(st.tables) && AllJustified(st) && OneCreation(st) && Possible(st, m)
    requires PutOwner(r, u) in Next(st, m).tasks && r in Next(st, m).tables.rooms
    ensures Next(st, m).tasks[PutOwner(r, u)] == 1 && !OwnerRow(Next(st, m).tables, r, u)
  {
    MoveEvolves(st, m);
    OnlyCreatesPut(st, m, r, u);
    OwnerRowAfter(st, m, r, u);
    if PutOwner(r, u) in st.tasks {
      assert Justified(st.tables, PutOwner(r, u));
    }
  }

  lemma {:induction false} HistoryOneCreation(sts: seq<Store>, ms: seq<Move>, n: nat)
    requires IsHistory(sts, ms) && n <= |ms|
    ensures OneCreation(sts[n])
  {
    if n > 0 {
      HistoryOneCreation(sts, ms, n - 1);
      HistoryLawful(sts, ms, n - 1);
      forall r: RoomId, u: UserId | PutOwner(r, u) in sts[n].tasks && r in sts[n].tables.rooms
        ensures sts[n].tasks[PutOwner(r, u)] == 1 && !OwnerRow(sts[n].tables, r, u)
      {
        OneCreationFor(sts[n - 1], ms[n - 1], r, u);
      }
    }
  }

  ghost predicate CreationOver(st: Store, r: RoomId, u: UserId) {
    PutOwner(r, u) !in st.tasks && r in st.tables.used
  }

  lemma {:induction false} CreationPast(sts: seq<Store>, ms: seq<Move>, m: nat, n: nat, r: RoomId, u: UserId)
    requires IsHistory(sts, ms) && m <= n <= |ms| && OwnerRow(sts[m].tables, r, u)
    ensures CreationOver(sts[n], r, u)
    decreases n
  {
    if m == n {
      HistoryLawful(sts, ms, n);
      HistoryOneCreation(sts, ms, n);
    } else {
      CreationPast(sts, ms, m, n - 1, r, u);
      HistoryLawful(sts, ms, n - 1);
      CreationStaysPast(sts[n - 1], ms[n - 1], r, u);
    }
  }

  lemma CreationStaysPast(st: Store, m: Move, r: RoomId, u: UserId)
    requires Referenced(st.tables) && Possible(st, m) && CreationOver(st, r, u)
    ensures CreationOver(Next(st, m), r, u)
  {
    MoveEvolves(st, m);
    OnlyCreatesPut(st, m, r, u);
  }

  /** From any moment at which the owner holds the role to any later one at which the room is still there: the owner
      holds it then exactly if none of the statements in between has taken it. Once lost it never comes back. */
  lemma {:induction false} OwnerKeptIff(sts: seq<Store>, ms: seq<Move>, m: nat, n: nat, r: RoomId, u: UserId)
    requires IsHistory(sts, ms) && m <= n <= |ms| && OwnerRow(sts[m].tables, r, u) && r in sts[n].tables.rooms
    ensures OwnerRow(sts[n].tables, r, u) <==> KeptBetween(ms, m, n, r, u)
    decreases n
  {
    if m < n {
      CreationPast(sts, ms, m, n - 1, r, u);
      OwnerKeptOneMore(sts, ms, m, n, r, u);
      OwnerKeptIff(sts, ms, m, n - 1, r, u);
    }
  }

  lemma OwnerKeptOneMore(sts: seq<Store>, ms: seq<Move>, m: nat, n: nat, r: RoomId, u: UserId)
    requires IsHistory(sts, ms) && m < n <= |ms| && CreationOver(sts[n - 1], r, u) && r in sts[n].tables.rooms
    ensures r in sts[n - 1].tables.rooms
    ensures (OwnerRow(sts[n - 1].tables, r, u) <==> KeptBetween(ms, m, n - 1, r, u)) ==>
              (OwnerRow(sts[n].tables, r, u) <==> KeptBetween(ms, m, n, r, u))
  {
    HistoryLawful(sts, ms, n - 1);
    OwnerKeptByMove(sts[n - 1], ms[n - 1], r, u);
    KeptOneMore(ms, m, n - 1, r, u);
  }

  lemma OwnerKeptByMove(st: Store, m: Move, r: RoomId, u: UserId)
    requires Lawful(st.tables) && AllJustified(st) && Possible(st, m)
    requires CreationOver(st, r, u) && r in Next(st, m).tables.rooms
    ensures r in st.tables.rooms
    ensures OwnerRow(Next(st, m).tables, r, u) <==> OwnerRow(st.tables, r, u) && !Demotes(m, r, u)
  {
    MoveEvolves(st, m);
    OwnerRowAfter(st, m, r, u);
  }

  lemma KeptOneMore(ms: seq<Move>, m: nat, n: nat, r: RoomId, u: UserId)
    requires m <= n < |ms|
    ensures KeptBetween(ms, m, n + 1, r, u) <==> KeptBetween(ms, m, n, r, u) && !Demotes(ms[n], r, u)
  {}

  // ---------- The calls behind the statements ----------

  /** t is a statement of call q. */
  ghost predicate Stems(t: Task, q: Request) {
    match t
    case PutOwner(r, u) => q.Create? && q.id == r && q.owner == u
    case CheckInviter(i, r, inviter, invitee) => q == InviteUser(i, r, inviter, invitee)
    case WriteInvite(i, r, inviter, invitee) => q == InviteUser(i, r, inviter, invitee)
    case ClaimInvite(i, _, u) => q == AcceptInvite(i, u)
    case PutInvitee(_, u) => q.AcceptInvite? && q.user == u
    case RefuseInvite(i) => q.DeclineInvite? && q.invite == i
    case CheckOwner(r, requester, _, target, role) => q == SetRole(r, requester, target, role)
    case WriteRole(r, target, role) => q.SetRole? && q.room == r && q.target == target && q.role == role
    case CheckTarget(r, _, target) => q.KickMember? && q.room == r && q.target == target
    case RemoveTarget(r, target) => q.KickMember? && q.room == r && q.target == target
    case PutJoiner(r, u) => q == HubJoin(r, u)
    case CheckJoiner(r, u) => q == HubJoin(r, u)
    case WriteName(r, name) => q.Rename? && q.room == r && TrimSpace(q.name) == name
    case OpenDM(id, a, b) => q == GetOrCreateDM(id, a, b, None)
  }

  lemma BeginStems(s: Tables, q: Request)
    requires Begin(s, q).1.More? && Enabled(s, q)
    ensures Stems(Begin(s, q).1.task, q)
  {}

  lemma ContinueStems(s: Tables, t: Task, q: Request)
    requires Stems(t, q) && Continue(s, t).1.More?
    ensures Stems(Continue(s, t).1.task, q)
  {}

  ghost predicate StartedBefore(ms: seq<Move>, n: nat, t: Task)
    requires n <= |ms|
  {
    exists k :: 0 <= k < n && ms[k].Start? && Stems(t, ms[k].q)
  }

  /** Every statement that runs belongs to a call that was made. */
  lemma {:induction false} TasksStem(sts: seq<Store>, ms: seq<Move>, n: nat, t: Task)
    requires IsHistory(sts, ms) && n <= |ms| && t in sts[n].tasks
    ensures StartedBefore(ms, n, t)
  {
    var st, m := sts[n - 1], ms[n - 1];
    if t in st.tasks {
      TasksStem(sts, ms, n - 1, t);
      return;
    }
    NewTask(st, m, t);
    if m.Start? {
      BeginStems(st.tables, m.q);
    } else {
      TasksStem(sts, ms, n - 1, m.task);
      var k :| 0 <= k < n - 1 && ms[k].Start? && Stems(m.task, ms[k].q);
      ContinueStems(st.tables, m.task, ms[k].q);
    }
  }

  /** The calls that can take the owner role from u in r. */
  ghost predicate CanDemote(q: Request, r: RoomId, u: UserId) {
    || q == HubJoin(r, u)
    || (q.AcceptInvite? && q.user == u)
    || (q.SetRole? && q.room == r && q.target == u)
    || (q.KickMember? && q.room == r && q.target == u)
  }

  lemma DemotionIsByCall(t: Task, q: Request, r: RoomId, u: UserId)
    requires Demotes(Resume(t), r, u) && Stems(t, q)
    ensures CanDemote(q, r, u)
  {}

  /** Whoever lost the owner role of a room lost it to one of these calls. */
  lemma OwnerLostToCall(sts: seq<Store>, ms: seq<Move>, m: nat, n: nat, r: RoomId, u: UserId) returns (k: nat)
    requires IsHistory(sts, ms) && m <= n <= |ms| && OwnerRow(sts[m].tables, r, u) && r in sts[n].tables.rooms
    requires !OwnerRow(sts[n].tables, r, u)
    ensures k < n && ms[k].Start? && CanDemote(ms[k].q, r, u)
  {
    OwnerKeptIff(sts, ms, m, n, r, u);
    var j :| m <= j < n && Demotes(ms[j], r, u);
    var t := ms[j].task;
    assert t in sts[j].tasks;
    TasksStem(sts, ms, j, t);
    k :| 0 <= k < j && ms[k].Start? && Stems(t, ms[k].q);
    DemotionIsByCall(t, ms[k].q, r, u);
  }

  // ---------- Calls that run alone ----------

  /** The calls after which the owner, who held the role before, no longer holds it: joining the public or voice room,
      accepting an own invite to it, or setting the own role. */
  ghost predicate DemotingCall(s: Tables, q: Request, r: RoomId, u: UserId)
    requires r in s.rooms
  {
    || (q == HubJoin(r, u) && (s.rooms[r].kind == Public || s.rooms[r].kind == Voice))
    || (q.AcceptInvite? && q.user == u && q.invite in s.invites && s.invites[q.invite].room == r
        && s.invites[q.invite].invitee == u && s.invites[q.invite].status == Pending)
    || (q.SetRole? && q.room == r && q.requester == u && q.target == u && q.role != Owner)
  }

  /** A call that runs alone takes the owner role exactly if it is one of these. In particular no kick does. */
  lemma OwnerKeepsRoleIff(s: Tables, q: Request, r: RoomId, u: UserId)
    requires Lawful(s) && Enabled(s, q) && (q.GetOrCreateDM? ==> q.id !in s.used)
    requires OwnerRow(s, r, u) && r in Call(s, q).0.rooms
    ensures r in s.rooms
    ensures OwnerRow(Call(s, q).0, r, u) <==> !DemotingCall(s, q, r, u)
  {}

  /** An owner may give up the role in a room of any kind, and an admin may then kick them. */
  lemma OwnerCanStepDown(s: Tables, r: RoomId, u: UserId, admin: UserId)
    requires Lawful(s) && OwnerRow(s, r, u)
    ensures Call(s, SetRole(r, u, u, Member)) == (PutMember(s, r, u, Member), Done)
    ensures (r, admin) in s.members && s.members[(r, admin)] == Admin ==>
              Call(PutMember(s, r, u, Member), KickMember(r, admin, u)).1 == Done
  {}

  /** The owner of a private room may invite themselves, and accepting writes Member over Owner. */
  lemma OwnerAcceptsOwnInvite(s: Tables, i: InviteId, r: RoomId, u: UserId)
    requires Lawful(s) && OwnerRow(s, r, u) && s.rooms[r].kind == Private && !Invited(s, r, u)
    ensures var (s1, out1) := Call(s, InviteUser(i, r, u, u));
            var (s2, out2) := Call(s1, AcceptInvite(i, u));
            && out1 == Done && out2 == Done
            && s2.members == s.members[(r, u) := Member]
  {
    var s1 := InsertInvite(s, i, r, u, u);
    assert Call(s, InviteUser(i, r, u, u)) == (s1, Done);
    assert SetStatus(s1, i, Accepted).members == s.members;
  }

  /** Whoever owns a public or voice room is left with the member role by joining it over the socket. */
  lemma OwnerIsDemotedByJoining(sts: seq<Store>, ms: seq<Move>, r: RoomId, u: UserId) returns (s1: Store, s2: Store)
    requires IsHistory(sts, ms)
    requires var s := sts[|ms|].tables;
             r in s.rooms && s.rooms[r].owner == u && (s.rooms[r].kind == Public || s.rooms[r].kind == Voice)
    ensures IsHistory(sts + [s1] + [s2], ms + [Start(HubJoin(r, u))] + [Resume(PutJoiner(r, u))])
    ensures s2.tables == PutMember(sts[|ms|].tables, r, u, Member)
  {
    var st := sts[|ms|];
    s1 := Store(st.tables, st.tasks + multiset{PutJoiner(r, u)});
    s2 := Next(s1, Resume(PutJoiner(r, u)));
    JoiningUpserts(st, r, u);
    OneMoreMove(sts, ms, Start(HubJoin(r, u)), s1);
    OneMoreMove(sts + [s1], ms + [Start(HubJoin(r, u))], Resume(PutJoiner(r, u)), s2);
  }

  lemma JoiningUpserts(st: Store, r: RoomId, u: UserId)
    requires r in st.tables.rooms && (st.tables.rooms[r].kind == Public || st.tables.rooms[r].kind == Voice)
    ensures Next(st, Start(HubJoin(r, u))) == Store(st.tables, st.tasks + multiset{PutJoiner(r, u)})
    ensures Next(Store(st.tables, st.tasks + multiset{PutJoiner(r, u)}), Resume(PutJoiner(r, u))).tables
         == PutMember(st.tables, r, u, Member)
  {}
}
