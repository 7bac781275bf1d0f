/** Direct-message rooms under interleaved calls: what always holds, and what a race between two lookups breaks. */
module StoreDMs {
  import opened Domain
  import opened StoreModel
  import opened StoreThreads
  import opened StoreHistory

  ghost predicate IsDM(s: Tables, r: RoomId) {
    r in s.rooms && s.rooms[r].kind == DM
  }

  /** A DM room has at most one member besides its owner. */
  ghost predicate OneGuest(s: Tables) {
    forall r: RoomId, b: UserId, c: UserId |
      IsDM(s, r) && IsMember(s, r, b) && IsMember(s, r, c) && b != s.rooms[r].owner && c != s.rooms[r].owner :: b == c
  }

  /** While a created DM room waits for its owner's row nobody else is in it. */
  ghost predicate OwnersFirst(st: Store) {
    forall t: Task, v: UserId | t in st.tasks && t.PutOwner? && IsDM(st.tables, t.room)
                               && IsMember(st.tables, t.room, v) ::
      v == t.owner
  }

  ghost predicate Opens(m: Move, r: RoomId) {
    m.Resume? && m.task.OpenDM? && m.task.a != m.task.b && m.task.id == r
  }

  /** Apart from the statement that opens it, a DM room is entered only by its owner, right after its creation. */
  lemma OnlyOwnerEnters(st: Store, m: Move, r: RoomId, u: UserId)
    requires Lawful(st.tables) && AllJustified(st) && Possible(st, m) && !Opens(m, r)
    requires IsDM(Next(st, m).tables, r) && IsMember(Next(st, m).tables, r, u) && !IsMember(st.tables, r, u)
    ensures m == Resume(PutOwner(r, u)) && IsDM(st.tables, r) && st.tables.rooms[r].owner == u
  {
    WhoInserts(st, m, r, u);
    assert Justified(st.tables, m.task);
  }

  lemma OwnersFirstStays(st: Store, m: Move)
    requires Lawful(st.tables) && AllJustified(st) && OwnersFirst(st) && Possible(st, m)
    ensures OwnersFirst(Next(st, m))
  {
    var st' := Next(st, m);
    forall t: Task, v: UserId | t in st'.tasks && t.PutOwner? && IsDM(st'.tables, t.room)
                               && IsMember(st'.tables, t.room, v)
      ensures v == t.owner
    {
      if t in st.tasks { OwnerStillFirst(st, m, t, v); } else { NewRoomIsEmpty(st, m, t, v); }
    }
  }

  lemma NewRoomIsEmpty(st: Store, m: Move, t: Task, v: UserId)
    requires Lawful(st.tables) && Possible(st, m) && t in Next(st, m).tasks && t !in st.tasks && t.PutOwner?
    ensures !IsMember(Next(st, m).tables, t.room, v)
  {
    NewTask(st, m, t);
  }

  lemma OwnerStillFirst(st: Store, m: Move, t: Task, v: UserId)
    requires Lawful(st.tables) && AllJustified(st) && OwnersFirst(st) && Possible(st, m)
    requires t in st.tasks && t.PutOwner? && IsDM(Next(st, m).tables, t.room) && IsMember(Next(st, m).tables, t.room, v)
    ensures v == t.owner
  {
    MoveEvolves(st, m);
    assert Justified(st.tables, t);
    if !IsMember(st.tables, t.room, v) { OnlyOwnerEnters(st, m, t.room, v); }
  }

  lemma OneGuestStays(st: Store, m: Move)
    requires Lawful(st.tables) && AllJustified(st) && OneGuest(st.tables) && Possible(st, m)
    ensures OneGuest(Next(st, m).tables)
  {
    MoveEvolves(st, m);
    var s, s' := st.tables, Next(st, m).tables;
    forall r: RoomId, b: UserId, c: UserId |
      IsDM(s', r) && IsMember(s', r, b) && IsMember(s', r, c) && b != s'.rooms[r].owner && c != s'.rooms[r].owner
      ensures b == c
    {
      if !Opens(m, r) {
        if !IsMember(s, r, b) { OnlyOwnerEnters(st, m, r, b); }
        if !IsMember(s, r, c) { OnlyOwnerEnters(st, m, r, c); }
      }
    }
  }

  lemma {:induction false} HistoryKeepsDMs(sts: seq<Store>, ms: seq<Move>, n: nat)
    requires IsHistory(sts, ms) && n <= |ms|
    ensures OneGuest(sts[n].tables) && OwnersFirst(sts[n])
  {
    if n > 0 {
      HistoryLawful(sts, ms, n - 1);
      HistoryKeepsDMs(sts, ms, n - 1);
      OneGuestStays(sts[n - 1], ms[n - 1]);
      OwnersFirstStays(sts[n - 1], ms[n - 1]);
    }
  }

  /** No DM room ever has three members, however the calls interleave. */
  lemma AtMostTwoInDM(sts: seq<Store>, ms: seq<Move>, n: nat, r: RoomId, a: UserId, b: UserId, c: UserId)
    requires IsHistory(sts, ms) && n <= |ms| && IsDM(sts[n].tables, r)
    requires IsMember(sts[n].tables, r, a) && IsMember(sts[n].tables, r, b) && IsMember(sts[n].tables, r, c)
    ensures a == b || b == c || a == c
  {
    HistoryKeepsDMs(sts, ms, n);
  }

  // ---------- One room per pair ----------

  ghost predicate DMsUnique(s: Tables) {
    forall q: RoomId, r: RoomId, a: UserId, b: UserId | IsDMOf(s, q, a, b) && IsDMOf(s, r, a, b) && a != b :: q == r
  }

  /** Any other move keeps or dissolves the pairs there are. */
  lemma PairsOnlyShrink(st: Store, m: Move, r: RoomId, a: UserId, b: UserId)
    requires Lawful(st.tables) && AllJustified(st) && OwnersFirst(st) && Possible(st, m) && !Opens(m, r)
    requires IsDMOf(Next(st, m).tables, r, a, b) && a != b
    ensures IsDMOf(st.tables, r, a, b) && IsDMOf(st.tables, r, b, a)
  {
    if !IsMember(st.tables, r, a) {
      OnlyOwnerEnters(st, m, r, a);
      assert IsMember(st.tables, r, b);
    }
    if !IsMember(st.tables, r, b) {
      OnlyOwnerEnters(st, m, r, b);
    }
    MoveEvolves(st, m);
  }

  lemma OpenedPair(st: Store, m: Move, r: RoomId, a: UserId, b: UserId)
    requires Lawful(st.tables) && Possible(st, m) && Opens(m, r) && a != b
    ensures IsDMOf(Next(st, m).tables, r, a, b)
       <==> (a == m.task.a && b == m.task.b) || (a == m.task.b && b == m.task.a)
  {}

  ghost predicate NoDMYet(s: Tables, a: UserId, b: UserId) {
    forall r: RoomId :: !IsDMOf(s, r, a, b)
  }

  /** The statement that opens a DM finds none for its pair. */
  ghost predicate Undisputed(s: Tables, m: Move) {
    m.Resume? && m.task.OpenDM? ==> m.task.a == m.task.b || NoDMYet(s, m.task.a, m.task.b)
  }

  lemma UniqueStays(st: Store, m: Move)
    requires Lawful(st.tables) && AllJustified(st) && OwnersFirst(st) && Possible(st, m)
    requires DMsUnique(st.tables) && Undisputed(st.tables, m)
    ensures DMsUnique(Next(st, m).tables)
  {
    var s' := Next(st, m).tables;
    forall p: RoomId, r: RoomId, a: UserId, b: UserId | IsDMOf(s', p, a, b) && IsDMOf(s', r, a, b) && a != b
      ensures p == r
    {
      if Opens(m, p) {
        OpenedPair(st, m, p, a, b);
        if !Opens(m, r) { PairsOnlyShrink(st, m, r, a, b); }
      } else {
        PairsOnlyShrink(st, m, p, a, b);
        if Opens(m, r) { OpenedPair(st, m, r, a, b); } else { PairsOnlyShrink(st, m, r, a, b); }
      }
    }
  }

  /** Opening a DM keeps one room per pair exactly when no room of the pair was opened since the lookup. */
  lemma OpeningKeepsUniqueIff(sts: seq<Store>, ms: seq<Move>, n: nat, t: Task)
    requires IsHistory(sts, ms) && n < |ms| && ms[n] == Resume(t) && t.OpenDM? && t.a != t.b && DMsUnique(sts[n].tables)
    ensures IsDMOf(sts[n + 1].tables, t.id, t.a, t.b)
    ensures DMsUnique(sts[n + 1].tables) <==> NoDMYet(sts[n].tables, t.a, t.b)
  {
    HistoryLawful(sts, ms, n);
    HistoryKeepsDMs(sts, ms, n);
    OpenedPair(sts[n], Resume(t), t.id, t.a, t.b);
    if NoDMYet(sts[n].tables, t.a, t.b) {
      UniqueStays(sts[n], Resume(t));
    } else {
      var r: RoomId :| IsDMOf(sts[n].tables, r, t.a, t.b);
      OpenedBeside(sts[n].tables, t, r);
    }
  }

  lemma OpenedBeside(s: Tables, t: Task, r: RoomId)
    requires Lawful(s) && t.OpenDM? && t.a != t.b && t.id !in s.used && IsDMOf(s, r, t.a, t.b)
    ensures IsDMOf(Continue(s, t).0, r, t.a, t.b) && IsDMOf(Continue(s, t).0, t.id, t.a, t.b) && r != t.id
  {}

  /** GetOrCreateDM runs as one step: its insert directly follows its lookup. */
  ghost predicate Undisturbed(ms: seq<Move>) {
    forall k | 0 <= k < |ms| && ms[k].Resume? && ms[k].task.OpenDM? ::
      k > 0 && ms[k - 1] == Start(GetOrCreateDM(ms[k].task.id, ms[k].task.a, ms[k].task.b, None))
  }

  lemma UndisturbedIsUndisputed(sts: seq<Store>, ms: seq<Move>, n: nat)
    requires IsHistory(sts, ms) && Undisturbed(ms) && n < |ms|
    ensures Undisputed(sts[n].tables, ms[n])
  {
    var m := ms[n];
    if m.Resume? && m.task.OpenDM? {
      assert ms[n - 1] == Start(GetOrCreateDM(m.task.id, m.task.a, m.task.b, None));
      LookupStillHolds(sts[n - 1], m.task.id, m.task.a, m.task.b);
    }
  }

  lemma LookupStillHolds(st: Store, id: RoomId, a: UserId, b: UserId)
    requires Possible(st, Start(GetOrCreateDM(id, a, b, None)))
    ensures NoDMYet(Next(st, Start(GetOrCreateDM(id, a, b, None))).tables, a, b)
  {}

  lemma {:induction false} DMsStayUnique(sts: seq<Store>, ms: seq<Move>, n: nat)
    requires IsHistory(sts, ms) && Undisturbed(ms) && n <= |ms|
    ensures DMsUnique(sts[n].tables)
  {
    if n > 0 {
      DMsStayUnique(sts, ms, n - 1);
      HistoryLawful(sts, ms, n - 1);
      HistoryKeepsDMs(sts, ms, n - 1);
      UndisturbedIsUndisputed(sts, ms, n - 1);
      UniqueStays(sts[n - 1], ms[n - 1]);
    }
  }

  /** With GetOrCreateDM as one step: as long as a DM room keeps two users, they have no other, nobody else is in it,
      and asking for it from either side, at any later time, returns that room and changes nothing. */
  lemma OneDMPerPair(sts: seq<Store>, ms: seq<Move>, n: nat, r: RoomId, q: Request)
    requires IsHistory(sts, ms) && Undisturbed(ms) && n <= |ms|
    requires q.GetOrCreateDM? && q.a != q.b && Enabled(sts[n].tables, q)
    requires IsDMOf(sts[n].tables, r, q.a, q.b)
    ensures q.found == Some(r) && Begin(sts[n].tables, q) == (sts[n].tables, Over(Done))
    ensures forall u :: IsMember(sts[n].tables, r, u) <==> u == q.a || u == q.b
  {
    DMsStayUnique(sts, ms, n);
    LookupFinds(sts[n].tables, r, q);
    forall u: UserId | IsMember(sts[n].tables, r, u) ensures u == q.a || u == q.b {
      AtMostTwoInDM(sts, ms, n, r, u, q.a, q.b);
    }
  }

  lemma LookupFinds(s: Tables, r: RoomId, q: Request)
    requires DMsUnique(s) && q.GetOrCreateDM? && q.a != q.b && Enabled(s, q) && IsDMOf(s, r, q.a, q.b)
    ensures q.found == Some(r)
  {}

  /** Two concurrent calls for a pair without a DM, one from each side, both look before either inserts: two rooms. */
  lemma RacingCallsDuplicate(sts: seq<Store>, ms: seq<Move>, q: RoomId, r: RoomId, a: UserId, b: UserId)
    returns (asked: seq<Store>, done: seq<Store>)
    requires IsHistory(sts, ms) && q != r && a != b && NoDMYet(sts[|ms|].tables, a, b)
    requires q !in sts[|ms|].tables.used && r !in sts[|ms|].tables.used
    ensures |asked| == |done| == 2
    ensures IsHistory(sts + [asked[0]] + [asked[1]] + [done[0]] + [done[1]],
                      ms + [Start(GetOrCreateDM(q, a, b, None))] + [Start(GetOrCreateDM(r, b, a, None))]
                         + [Resume(OpenDM(q, a, b))] + [Resume(OpenDM(r, b, a))])
    ensures IsDMOf(done[1].tables, q, a, b) && IsDMOf(done[1].tables, r, a, b)
  {
    var st := sts[|ms|];
    var a1 := Store(st.tables, st.tasks + multiset{OpenDM(q, a, b)});
    var a2 := Store(st.tables, a1.tasks + multiset{OpenDM(r, b, a)});
    var o1 := Next(a2, Resume(OpenDM(q, a, b)));
    var o2 := Next(o1, Resume(OpenDM(r, b, a)));
    asked, done := [a1, a2], [o1, o2];
    BothAsk(sts, ms, q, r, a, b, a1, a2);
    BothOpen(a2, q, r, a, b);
    var ms2 := ms + [Start(GetOrCreateDM(q, a, b, None))] + [Start(GetOrCreateDM(r, b, a, None))];
    OneMoreMove(sts + [a1] + [a2], ms2, Resume(OpenDM(q, a, b)), o1);
    OneMoreMove(sts + [a1] + [a2] + [o1], ms2 + [Resume(OpenDM(q, a, b))], Resume(OpenDM(r, b, a)), o2);
  }

  lemma BothAsk(sts: seq<Store>, ms: seq<Move>, q: RoomId, r: RoomId, a: UserId, b: UserId, a1: Store, a2: Store)
    requires IsHistory(sts, ms) && NoDMYet(sts[|ms|].tables, a, b)
    requires a1 == Store(sts[|ms|].tables, sts[|ms|].tasks + multiset{OpenDM(q, a, b)})
    requires a2 == Store(sts[|ms|].tables, a1.tasks + multiset{OpenDM(r, b, a)})
    ensures IsHistory(sts + [a1] + [a2],
            ms + [Start(GetOrCreateDM(q, a, b, None))] + [Start(GetOrCreateDM(r, b, a, None))])
  {
    assert forall p: RoomId | IsDMOf(sts[|ms|].tables, p, b, a) :: IsDMOf(sts[|ms|].tables, p, a, b);
    OneMoreMove(sts, ms, Start(GetOrCreateDM(q, a, b, None)), a1);
    OneMoreMove(sts + [a1], ms + [Start(GetOrCreateDM(q, a, b, None))], Start(GetOrCreateDM(r, b, a, None)), a2);
  }

  lemma BothOpen(st: Store, q: RoomId, r: RoomId, a: UserId, b: UserId)
    requires q != r && a != b && q !in st.tables.used && r !in st.tables.used
    requires OpenDM(q, a, b) in st.tasks && OpenDM(r, b, a) in st.tasks
    ensures Possible(st, Resume(OpenDM(q, a, b)))
    ensures var st1 := Next(st, Resume(OpenDM(q, a, b)));
            && Possible(st1, Resume(OpenDM(r, b, a)))
            && var s2 := Next(st1, Resume(OpenDM(r, b, a))).tables;
               IsDMOf(s2, q, a, b) && IsDMOf(s2, r, a, b)
  {
    OpensIn(st.tables, q, a, b);
    OpensIn(Continue(st.tables, OpenDM(q, a, b)).0, r, b, a);
  }

  lemma OpensIn(s: Tables, id: RoomId, a: UserId, b: UserId)
    requires a != b
    ensures var s' := Continue(s, OpenDM(id, a, b)).0;
            && s'.used == s.used + {id} && IsDMOf(s', id, a, b)
            && forall r: RoomId | r != id && IsDMOf(s, r, b, a) :: IsDMOf(s', r, b, a)
  {}
}
