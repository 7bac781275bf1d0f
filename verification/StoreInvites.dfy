/** Which status an invite ends with. */
module StoreInvites {
  import opened Domain
  import opened StoreModel
  import opened StoreThreads
  import opened StoreHistory

  /** The statement that accepts invite i, or declines it, ran while the invite was pending. */
  ghost predicate Answers(st: Store, m: Move, i: InviteId, accepted: bool) {
    && m.Resume? && i in st.tables.invites && st.tables.invites[i].status == Pending
    && if accepted then m.task.ClaimInvite? && m.task.invite == i else m.task == RefuseInvite(i)
  }

  ghost predicate Answered(sts: seq<Store>, ms: seq<Move>, n: nat, i: InviteId, accepted: bool)
    requires n <= |ms| < |sts|
  {
    exists k :: 0 <= k < n && Answers(sts[k], ms[k], i, accepted)
  }

  /** The same, move by move. */
  ghost predicate AnsweredSoFar(sts: seq<Store>, ms: seq<Move>, n: nat, i: InviteId, accepted: bool)
    requires n <= |ms| < |sts|
  {
    n > 0 && (Answers(sts[n - 1], ms[n - 1], i, accepted) || AnsweredSoFar(sts, ms, n - 1, i, accepted))
  }

  lemma {:induction false} SoFarIff(sts: seq<Store>, ms: seq<Move>, n: nat, i: InviteId, accepted: bool)
    requires n <= |ms| < |sts|
    ensures AnsweredSoFar(sts, ms, n, i, accepted) <==> Answered(sts, ms, n, i, accepted)
  {
    if n > 0 { SoFarIff(sts, ms, n - 1, i, accepted); }
  }

  lemma BeginKeepsInvite(s: Tables, q: Request, i: InviteId)
    requires i in Begin(s, q).0.invites
    ensures i in s.invites && Begin(s, q).0.invites[i] == s.invites[i]
  {}

  lemma ContinueInvite(s: Tables, t: Task, i: InviteId)
    requires i in s.invites && i in Continue(s, t).0.invites && (t.WriteInvite? ==> t.invite !in s.invites)
    ensures Continue(s, t).0.invites[i].status
         == if s.invites[i].status != Pending then s.invites[i].status
            else if t.ClaimInvite? && t.invite == i then Accepted
            else if t == RefuseInvite(i) then Declined
            else Pending
  {}

  lemma WrittenPending(s: Tables, t: Task, i: InviteId)
    requires i !in s.invites && i in Continue(s, t).0.invites
    ensures Continue(s, t).0.invites[i].status == Pending
  {}

  ghost function StatusFor(accepted: bool): Status {
    if accepted then Accepted else Declined
  }

  /** An invite has the status after a move if it had it before or the move answered it so. */
  lemma StatusAfter(st: Store, m: Move, st': Store, i: InviteId, accepted: bool)
    requires st' == Next(st, m) && i in st'.tables.invites && Referenced(st.tables) && Possible(st, m)
    ensures st'.tables.invites[i].status == StatusFor(accepted)
       <==> Answers(st, m, i, accepted)
            || (i in st.tables.invites && st.tables.invites[i].status == StatusFor(accepted))
  {
    if m.Start? { BeginKeepsInvite(st.tables, m.q, i); }
    else if i in st.tables.invites { ContinueInvite(st.tables, m.task, i); }
    else { WrittenPending(st.tables, m.task, i); }
  }

  /** An invite that was answered is known. */
  lemma AnsweredIsUsed(sts: seq<Store>, ms: seq<Move>, n: nat, i: InviteId, accepted: bool)
    requires IsHistory(sts, ms) && n <= |ms| && AnsweredSoFar(sts, ms, n, i, accepted)
    ensures i in sts[n].tables.usedInvites
  {
    SoFarIff(sts, ms, n, i, accepted);
    var k :| 0 <= k < n && Answers(sts[k], ms[k], i, accepted);
    HistoryLawful(sts, ms, k);
    HistoryEvolves(sts, ms, k, n);
  }

  lemma StatusOneMore(sts: seq<Store>, ms: seq<Move>, n: nat, i: InviteId, accepted: bool)
    requires IsHistory(sts, ms) && 0 < n <= |ms| && i in sts[n].tables.invites
    ensures sts[n].tables.invites[i].status == StatusFor(accepted)
       <==> Answers(sts[n - 1], ms[n - 1], i, accepted)
            || (i in sts[n - 1].tables.invites && sts[n - 1].tables.invites[i].status == StatusFor(accepted))
  {
    assert Referenced(sts[n - 1].tables) by { HistoryLawful(sts, ms, n - 1); }
    StatusAfter(sts[n - 1], ms[n - 1], sts[n], i, accepted);
  }

  /** An invite that appears now has not been answered before. */
  lemma NewIsUnanswered(sts: seq<Store>, ms: seq<Move>, n: nat, i: InviteId, accepted: bool)
    requires IsHistory(sts, ms) && 0 < n <= |ms| && i in sts[n].tables.invites && i !in sts[n - 1].tables.invites
    ensures !AnsweredSoFar(sts, ms, n - 1, i, accepted)
  {
    HistoryEvolves(sts, ms, n - 1, n);
    if AnsweredSoFar(sts, ms, n - 1, i, accepted) { AnsweredIsUsed(sts, ms, n - 1, i, accepted); }
  }

  lemma {:induction false} StatusIff(sts: seq<Store>, ms: seq<Move>, n: nat, i: InviteId, accepted: bool)
    requires IsHistory(sts, ms) && n <= |ms| && i in sts[n].tables.invites
    ensures sts[n].tables.invites[i].status == StatusFor(accepted) <==> AnsweredSoFar(sts, ms, n, i, accepted)
  {
    StatusOneMore(sts, ms, n, i, accepted);
    if i in sts[n - 1].tables.invites {
      StatusIff(sts, ms, n - 1, i, accepted);
    } else {
      NewIsUnanswered(sts, ms, n, i, accepted);
    }
  }

  /** In every interleaved history: an invite is accepted exactly if an acceptance of it ran while it was pending, and
      declined exactly if a refusal did. */
  lemma StatusByAnswer(sts: seq<Store>, ms: seq<Move>, n: nat, i: InviteId)
    requires IsHistory(sts, ms) && n <= |ms| && i in sts[n].tables.invites
    ensures sts[n].tables.invites[i].status == Accepted <==> Answered(sts, ms, n, i, true)
    ensures sts[n].tables.invites[i].status == Declined <==> Answered(sts, ms, n, i, false)
  {
    StatusIff(sts, ms, n, i, true);
    StatusIff(sts, ms, n, i, false);
    SoFarIff(sts, ms, n, i, true);
    SoFarIff(sts, ms, n, i, false);
  }

  /** Whoever declined an invite stays out: from the refusal on, while the room is there, the invite stays declined and
      an invitee that does not own the room is not a member of it. */
  lemma DeclinedStaysOut(sts: seq<Store>, ms: seq<Move>, k: nat, n: nat, i: InviteId)
    requires IsHistory(sts, ms) && k < n <= |ms| && Answers(sts[k], ms[k], i, false)
    ensures var inv, s := sts[k].tables.invites[i], sts[n].tables;
            inv.room in s.rooms ==>
              && i in s.invites && s.invites[i] == inv.(status := Declined)
              && (s.rooms[inv.room].owner != inv.invitee ==> (inv.room, inv.invitee) !in s.members)
  {
    HistoryLawful(sts, ms, k);
    HistoryLawful(sts, ms, n);
    HistoryEvolves(sts, ms, k, n);
    if sts[k].tables.invites[i].room in sts[n].tables.rooms {
      assert Answered(sts, ms, n, i, false);
      StatusByAnswer(sts, ms, n, i);
      NotEntitledIfDeclined(sts[n].tables, i);
    }
  }

  lemma NotEntitledIfDeclined(s: Tables, i: InviteId)
    requires Lawful(s) && i in s.invites && s.invites[i].status == Declined
    ensures s.rooms[s.invites[i].room].owner != s.invites[i].invitee ==>
              (s.invites[i].room, s.invites[i].invitee) !in s.members
  {
    var r, u := s.invites[i].room, s.invites[i].invitee;
    assert (r, u) in s.members ==> Entitled(s, r, u, s.clock);
    assert forall j | HasAccepted(s, j, r, u) :: j == i;
  }
}
