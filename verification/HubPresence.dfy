/** Who is online: the mark the hub keeps for a user and the offline notices it sends, against the clients it has. */
module HubPresence {
  import opened Domain
  import opened Mailboxes
  import opened HubModel
  import opened HubIndex
  import opened HubAnySchedule

  /** The users with a client in the hub. */
  ghost function Present<C>(s: HubState<C>): set<UserId> {
    set c | c in s.clients :: UserOf(s, c)
  }

  /** Every other client of the hub belongs to another user than c. */
  ghost predicate SoleClient<C>(s: HubState<C>, c: C) {
    forall q <- s.clients | q != c :: UserOf(s, q) != UserOf(s, c)
  }

  /** The event takes a client out of the hub. */
  ghost predicate Disconnects<C>(s: HubState<C>, e: Event<C>) {
    e.req.Unregister? && e.req.c in s.clients
  }

  lemma PresentAfterDisconnect<C>(s: HubState<C>, e: Event<C>, u: UserId)
    requires Disconnects(s, e) && s.clients <= s.joined.Keys
    ensures u in Present(Step(s, e)) <==> u in Present(s) && (u == UserOf(s, e.req.c) ==> !SoleClient(s, e.req.c))
  {
    var c, s' := e.req.c, Step(s, e);
    StepClients(s, e);
    SameUsers(s, e);
    if u in Present(s) && u != UserOf(s, c) {
      var q :| q in s.clients && UserOf(s, q) == u;
      assert q in s'.clients && UserOf(s', q) == u;
    }
    if u == UserOf(s, c) && !SoleClient(s, c) {
      var q :| q in s.clients && q != c && UserOf(s, q) == u;
      assert q in s'.clients && UserOf(s', q) == u;
    }
  }

  /** Under any schedule: a client that shared a room with c is told once that c's user is offline, and that is true
      exactly if no other client of that user is in the hub. */
  lemma OfflineNoticeTrueIff<C>(user: map<C, UserId>, es: seq<Event<C>>, e: Event<C>, d: C)
    requires IsRun(Fresh(user), es + [e]) && d in user && Disconnects(Exec(Fresh(user), es), e)
    requires ShareRoom(Exec(Fresh(user), es), e.req.c, d)
    ensures e.req.c in user && multiset(Mail(Exec(Fresh(user), es), e, d))[Offline(user[e.req.c])] == 1
    ensures user[e.req.c] !in Present(Exec(Fresh(user), es + [e])) <==> SoleClient(Exec(Fresh(user), es), e.req.c)
  {
    var s, c := Exec(Fresh(user), es), e.req.c;
    RunSnoc(Fresh(user), es, e);
    assert s.clients <= s.joined.Keys && s.user == user && c in user by { RunKeepsIndex(user, es); }
    OneOfflineNotice(user, es, e, d);
    PresentAfterDisconnect(s, e, user[c]);
    assert UserOf(s, c) in Present(s);
  }

  // ---------- The mark ----------

  /** The users marked online: SetOnline on a register, SetOffline when a client leaves the hub. */
  ghost function Marked<C>(user: map<C, UserId>, es: seq<Event<C>>): set<UserId> {
    if es == [] then {}
    else MarkStep(Marked(user, es[..|es| - 1]), Exec(Fresh(user), es[..|es| - 1]), es[|es| - 1])
  }

  ghost function MarkStep<C>(marked: set<UserId>, s: HubState<C>, e: Event<C>): set<UserId> {
    if e.req.Register? then marked + {UserOf(s, e.req.c)}
    else if Disconnects(s, e) then marked - {UserOf(s, e.req.c)}
    else marked
  }

  lemma PresentAfter<C>(s: HubState<C>, e: Event<C>, u: UserId)
    requires s.clients <= s.joined.Keys && !Disconnects(s, e)
    ensures u in Present(Step(s, e)) <==> u in Present(s) || (e.req.Register? && u == UserOf(s, e.req.c))
  {
    var s' := Step(s, e);
    StepClients(s, e);
    SameUsers(s, e);
    if u in Present(s) {
      var q :| q in s.clients && UserOf(s, q) == u;
      assert q in s'.clients && UserOf(s', q) == u;
    }
    if e.req.Register? { assert e.req.c in s'.clients && UserOf(s', e.req.c) == UserOf(s, e.req.c); }
  }

  /** The step of both theorems below. */
  lemma MarkAfter<C>(marked: set<UserId>, s: HubState<C>, e: Event<C>)
    requires s.clients <= s.joined.Keys
    ensures marked <= Present(s) ==> MarkStep(marked, s, e) <= Present(Step(s, e))
    ensures marked == Present(s) ==>
              (MarkStep(marked, s, e) == Present(Step(s, e)) <==> (Disconnects(s, e) ==> SoleClient(s, e.req.c)))
  {
    if Disconnects(s, e) {
      forall u ensures u in Present(Step(s, e))
                 <==> u in Present(s) && (u == UserOf(s, e.req.c) ==> !SoleClient(s, e.req.c)) {
        PresentAfterDisconnect(s, e, u);
      }
      assert UserOf(s, e.req.c) in Present(s);
      assert UserOf(s, e.req.c) !in MarkStep(marked, s, e);
    } else {
      forall u ensures u in Present(Step(s, e))
                 <==> u in Present(s) || (e.req.Register? && u == UserOf(s, e.req.c)) {
        PresentAfter(s, e, u);
      }
    }
  }

  /** Nobody is marked online without a client in the hub, under any schedule. */
  lemma {:induction false} MarkedArePresent<C>(user: map<C, UserId>, es: seq<Event<C>>)
    requires IsRun(Fresh(user), es)
    ensures Marked(user, es) <= Present(Exec(Fresh(user), es))
    decreases |es|
  {
    if es != [] {
      MarkedArePresent(user, es[..|es| - 1]);
      RunKeepsIndex(user, es[..|es| - 1]);
      MarkAfter(Marked(user, es[..|es| - 1]), Exec(Fresh(user), es[..|es| - 1]), es[|es| - 1]);
    }
  }

  ghost predicate RightAt<C>(user: map<C, UserId>, es: seq<Event<C>>, k: nat)
    requires k <= |es|
  {
    Marked(user, es[..k]) == Present(Exec(Fresh(user), es[..k]))
  }

  ghost predicate AloneAt<C>(user: map<C, UserId>, es: seq<Event<C>>, k: nat)
    requires k < |es|
  {
    var s := Exec(Fresh(user), es[..k]);
    Disconnects(s, es[k]) ==> SoleClient(s, es[k].req.c)
  }

  lemma PrefixStep<C>(user: map<C, UserId>, es: seq<Event<C>>, k: nat, n: nat)
    requires k + 1 == n <= |es|
    ensures Exec(Fresh(user), es[..n]) == Step(Exec(Fresh(user), es[..k]), es[k])
    ensures Marked(user, es[..n]) == MarkStep(Marked(user, es[..k]), Exec(Fresh(user), es[..k]), es[k])
  {
    assert es[..n][..k] == es[..k];
  }

  lemma PrefixKnown<C>(user: map<C, UserId>, es: seq<Event<C>>, k: nat)
    requires IsRun(Fresh(user), es) && k <= |es|
    ensures Exec(Fresh(user), es[..k]).clients <= Exec(Fresh(user), es[..k]).joined.Keys
  {
    RunPrefix(Fresh(user), es, k);
    RunKeepsIndex(user, es[..k]);
  }

  lemma RightOneMore<C>(user: map<C, UserId>, es: seq<Event<C>>, k: nat, n: nat)
    requires IsRun(Fresh(user), es) && k + 1 == n <= |es|
    ensures RightAt(user, es, k) ==> (RightAt(user, es, n) <==> AloneAt(user, es, k))
  {
    PrefixKnown(user, es, k);
    PrefixStep(user, es, k, n);
    MarkAfter(Marked(user, es[..k]), Exec(Fresh(user), es[..k]), es[k]);
  }

  lemma {:induction false} RightWhileAlone<C>(user: map<C, UserId>, es: seq<Event<C>>, n: nat)
    requires IsRun(Fresh(user), es) && n <= |es| && forall k: nat | k < n :: AloneAt(user, es, k)
    ensures RightAt(user, es, n)
  {
    if n > 0 {
      RightWhileAlone(user, es, n - 1);
      RightOneMore(user, es, n - 1, n);
    } else {
      assert es[..0] == [];
    }
  }

  /** The marks are right at every moment of a run exactly if no client leaves the hub while another client of its user
      is there. */
  lemma MarksRightIff<C>(user: map<C, UserId>, es: seq<Event<C>>)
    requires IsRun(Fresh(user), es)
    ensures (forall k: nat | k <= |es| :: RightAt(user, es, k)) <==> (forall k: nat | k < |es| :: AloneAt(user, es, k))
  {
    if forall k: nat | k < |es| :: AloneAt(user, es, k) {
      forall k: nat | k <= |es| ensures RightAt(user, es, k) { RightWhileAlone(user, es, k); }
    }
    if forall k: nat | k <= |es| :: RightAt(user, es, k) {
      forall k: nat | k < |es| ensures AloneAt(user, es, k) {
        assert RightAt(user, es, k) && RightAt(user, es, k + 1);
        RightOneMore(user, es, k, k + 1);
      }
    }
  }
}
