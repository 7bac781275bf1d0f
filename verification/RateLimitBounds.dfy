/** How many requests the limiter lets through in a window of time. */
module RateLimitBounds {
  import opened Domain
  import opened RateLimitModel

  lemma DivMono(a: int, b: int, p: int)
    requires p > 0 && 0 <= a <= b
    ensures 0 <= a / p <= b / p
  {
    DivNonNegative(a, p);
    DivAtLeast(a / p, b, p);
  }

  lemma DivSum(a: int, b: int, p: int)
    requires p > 0 && a >= 0 && b >= 0
    ensures a / p + b / p <= (a + b) / p
  {
    DivNonNegative(a, p);
    DivNonNegative(b, p);
    assert (a / p + b / p) * p == a / p * p + b / p * p;
    DivAtLeast(a / p + b / p, a + b, p);
  }

  lemma DivStep(a: int, b: int, p: int)
    requires p > 0 && 0 <= a && 0 <= b < a + p
    ensures b / p <= a / p + 1
  {
    DivNonNegative(b, p);
    assert (a / p + 2) * p == a / p * p + 2 * p;
    assert a < a / p * p + p;
    if b / p > a / p + 1 {
      MulMono(a / p + 2, b / p, p);
    }
  }

  // ---------- Windows ----------

  /** Sweeps that found the key's bucket stale. */
  ghost function Evictions(cfg: Config, ops: seq<Op>, key: Key): nat
    requires ValidConfig(cfg)
  {
    if ops == [] then 0
    else
      var before, op := ops[..|ops| - 1], ops[|ops| - 1];
      var b := Solo(cfg, before, key);
      Evictions(cfg, before, key) + if op.Sweep? && b.Some? && Stale(b.value, Reading(op, key)) then 1 else 0
  }

  /** The capacities those evictions gave back. */
  ghost function Grants(cfg: Config, ops: seq<Op>, key: Key): int
    requires ValidConfig(cfg)
  {
    if ops == [] then 0
    else
      var before, op := ops[..|ops| - 1], ops[|ops| - 1];
      var b := Solo(cfg, before, key);
      Grants(cfg, before, key) + if op.Sweep? && b.Some? && Stale(b.value, Reading(op, key)) then cfg.capacity else 0
  }

  lemma {:induction false} GrantsAreEvictions(cfg: Config, ops: seq<Op>, key: Key)
    requires ValidConfig(cfg)
    ensures Grants(cfg, ops, key) == Evictions(cfg, ops, key) * cfg.capacity
    decreases |ops|
  {
    if ops != [] {
      GrantsAreEvictions(cfg, ops[..|ops| - 1], key);
      OnceMore(Evictions(cfg, ops[..|ops| - 1], key), cfg.capacity);
    }
  }

  lemma OnceMore(n: int, c: int)
    ensures (n + 1) * c == n * c + c
  {}

  /** The budget of a window that began at s, after `admitted` admissions in it: the tokens left and the admissions
      together stay below the capacity, what evictions granted on top, and the whole refill periods since s. */
  ghost predicate WithinBudget(cfg: Config, b: Option<Bucket>, s: int, at: int, admitted: int, granted: int)
    requires ValidConfig(cfg)
  {
    && s <= at && admitted >= 0 && granted >= 0
    && if b.None? then admitted <= granted + (at - s) / cfg.refillPer
       else
         && Settled(cfg, b.value, at)
         && HeldWithinBudget(cfg, b.value.tokens, b.value.lastSeen.value, s, admitted, granted)
  }

  ghost predicate HeldWithinBudget(cfg: Config, tokens: int, seen: int, s: int, admitted: int, granted: int)
    requires ValidConfig(cfg)
  {
    if seen >= s then admitted + tokens <= granted + cfg.capacity + (seen - s) / cfg.refillPer
    else admitted + tokens <= granted + cfg.capacity - 1 && (admitted > 0 ==> s - seen < cfg.refillPer)
  }

  /** A refill read at t1 adds no more than the whole periods that passed since s. */
  lemma RefillWithinBudget(cfg: Config, tokens: int, seen: int, s: int, t1: int, t2: int, gain: int, admitted: int,
                           granted: int)
    requires ValidConfig(cfg) && HeldWithinBudget(cfg, tokens, seen, s, admitted, granted)
    requires 0 <= tokens <= cfg.capacity && seen <= t1 <= t2 && s <= t1 && admitted >= 0 && granted >= 0
    requires gain <= (t1 - seen) / cfg.refillPer
    ensures HeldWithinBudget(cfg, Min(cfg.capacity, tokens + gain), t2, s, admitted, granted)
  {
    var p := cfg.refillPer;
    DivMono(t1 - s, t2 - s, p);
    if seen >= s {
      DivSum(seen - s, t1 - seen, p);
    } else if admitted > 0 {
      DivStep(t1 - s, t1 - seen, p);
    }
  }

  lemma CallWithinBudget(cfg: Config, b: Option<Bucket>, s: int, at: int, admitted: int, granted: int, t1: int, t2: int)
    requires ValidConfig(cfg) && WithinBudget(cfg, b, s, at, admitted, granted) && at <= t1 <= t2
    ensures var (b', ok) := CallStep(cfg, b, t1, t2);
            WithinBudget(cfg, Some(b'), s, t2, admitted + (if ok then 1 else 0), granted)
  {
    CallSettles(cfg, b, t1, t2);
    if b.None? {
      DivMono(at - s, t2 - s, cfg.refillPer);
    } else {
      var seen, elapsed := b.value.lastSeen.value, Since(b.value.lastSeen, t1);
      DivMono(elapsed, t1 - seen, cfg.refillPer);
      if elapsed / cfg.refillPer > 0 {
        RefillWithinBudget(cfg, b.value.tokens, seen, s, t1, t2, elapsed / cfg.refillPer, admitted, granted);
      } else if cfg.refillPer <= elapsed {
        DivAtLeast(1, elapsed, cfg.refillPer);
      }
    }
  }

  lemma SweepWithinBudget(cfg: Config, b: Option<Bucket>, s: int, at: int, admitted: int, granted: int, t: int)
    requires ValidConfig(cfg) && WithinBudget(cfg, b, s, at, admitted, granted) && at <= t
    ensures WithinBudget(cfg, b, s, t, admitted, granted)
    ensures b.Some? ==> WithinBudget(cfg, None, s, t, admitted, granted + cfg.capacity)
  {
    DivMono(at - s, t - s, cfg.refillPer);
    if b.Some? && b.value.lastSeen.value >= s { DivMono(b.value.lastSeen.value - s, t - s, cfg.refillPer); }
  }

  /** All readings of the operations from n on lie between s and e. */
  ghost predicate InWindow(ops: seq<Op>, n: nat, s: int, e: int) {
    n <= |ops| && s <= e && forall i | n <= i < |ops| :: s <= Begin(ops[i]) && End(ops[i]) <= e
  }

  /** The clock after ops, or s if that is later. */
  ghost function At(ops: seq<Op>, s: int): int {
    if ops == [] || Now(ops) < s then s else Now(ops)
  }

  ghost function AdmittedBy(cfg: Config, b: Option<Bucket>, op: Op, key: Key): int
    requires ValidConfig(cfg)
  {
    if op.Call? && op.key == key && CallStep(cfg, b, op.t1, op.t2).1 then 1 else 0
  }

  ghost function GrantedBy(cfg: Config, b: Option<Bucket>, op: Op, key: Key): int {
    if op.Sweep? && b.Some? && Stale(b.value, Reading(op, key)) then cfg.capacity else 0
  }

  lemma OpTerms(cfg: Config, before: seq<Op>, ops: seq<Op>, key: Key)
    requires ValidConfig(cfg) && ops != [] && before == ops[..|ops| - 1]
    ensures var b, op := Solo(cfg, before, key), ops[|ops| - 1];
            && Solo(cfg, ops, key) == SoloStep(cfg, b, op, key)
            && Admitted(cfg, ops, key) == Admitted(cfg, before, key) + AdmittedBy(cfg, b, op, key)
            && Grants(cfg, ops, key) == Grants(cfg, before, key) + GrantedBy(cfg, b, op, key)
  {
    assert ops == before + [ops[|ops| - 1]];
    AdmittedSnoc(cfg, before, ops[|ops| - 1], key);
  }

  lemma OpWithinBudget(cfg: Config, b: Option<Bucket>, op: Op, key: Key, s: int, at: int, admitted: int, granted: int,
                       b': Option<Bucket>, at': int, admitted': int, granted': int)
    requires ValidConfig(cfg) && at <= Begin(op) <= End(op) == at' && b' == SoloStep(cfg, b, op, key)
    requires admitted' == admitted + AdmittedBy(cfg, b, op, key) && granted' == granted + GrantedBy(cfg, b, op, key)
    ensures WithinBudget(cfg, b, s, at, admitted, granted) ==> WithinBudget(cfg, b', s, at', admitted', granted')
  {
    if WithinBudget(cfg, b, s, at, admitted, granted) {
      if op.Call? && op.key == key {
        CallWithinBudget(cfg, b, s, at, admitted, granted, op.t1, op.t2);
      } else {
        SweepWithinBudget(cfg, b, s, at, admitted, granted, End(op));
      }
    }
  }

  lemma WindowStart(cfg: Config, ops: seq<Op>, key: Key, s: int)
    requires ValidConfig(cfg) && Clocked(ops)
    ensures WithinBudget(cfg, Solo(cfg, ops, key), s, At(ops, s), 0, 0)
  {
    RunSettles(cfg, ops, key);
    var b := Solo(cfg, ops, key);
    DivNonNegative(At(ops, s) - s, cfg.refillPer);
    if b.Some? && b.value.lastSeen.value >= s { DivNonNegative(b.value.lastSeen.value - s, cfg.refillPer); }
  }

  lemma {:induction false} WindowBudget(cfg: Config, ops: seq<Op>, key: Key, n: nat, s: int, e: int)
    requires ValidConfig(cfg) && Clocked(ops) && InWindow(ops, n, s, e)
    ensures WithinBudget(cfg, Solo(cfg, ops, key), s, At(ops, s),
                         Admitted(cfg, ops, key) - Admitted(cfg, ops[..n], key),
                         Grants(cfg, ops, key) - Grants(cfg, ops[..n], key))
    decreases |ops|
  {
    if |ops| == n {
      WindowStart(cfg, ops, key, s);
      assert ops[..n] == ops;
    } else {
      var before := ops[..|ops| - 1];
      WindowBefore(ops, n, s, e);
      WindowBudget(cfg, before, key, n, s, e);
      WindowOneMore(cfg, before, ops, key, s, Admitted(cfg, ops[..n], key), Grants(cfg, ops[..n], key));
    }
  }

  lemma WindowBefore(ops: seq<Op>, n: nat, s: int, e: int)
    requires Clocked(ops) && InWindow(ops, n, s, e) && n < |ops|
    ensures Clocked(ops[..|ops| - 1]) && InWindow(ops[..|ops| - 1], n, s, e)
    ensures ops[..|ops| - 1][..n] == ops[..n] && ClockRises(ops[..|ops| - 1], ops, s)
  {
    if |ops| > 1 { assert ops[..|ops| - 1][|ops| - 2] == ops[|ops| - 2]; }
  }

  /** The last operation of ops starts after the ones before it. */
  ghost predicate ClockRises(before: seq<Op>, ops: seq<Op>, s: int) {
    ops != [] && At(before, s) <= Begin(ops[|ops| - 1]) <= End(ops[|ops| - 1]) == At(ops, s)
  }

  /** One more operation in a window before which a0 calls were admitted and g0 was granted. */
  lemma WindowOneMore(cfg: Config, before: seq<Op>, ops: seq<Op>, key: Key, s: int, a0: int, g0: int)
    requires ValidConfig(cfg) && ops != [] && before == ops[..|ops| - 1] && ClockRises(before, ops, s)
    ensures WithinBudget(cfg, Solo(cfg, before, key), s, At(before, s), Admitted(cfg, before, key) - a0,
                         Grants(cfg, before, key) - g0) ==>
              WithinBudget(cfg, Solo(cfg, ops, key), s, At(ops, s), Admitted(cfg, ops, key) - a0,
                           Grants(cfg, ops, key) - g0)
  {
    OpTerms(cfg, before, ops, key);
    OpWithinBudget(cfg, Solo(cfg, before, key), ops[|ops| - 1], key, s, At(before, s), Admitted(cfg, before, key) - a0,
                   Grants(cfg, before, key) - g0, Solo(cfg, ops, key), At(ops, s), Admitted(cfg, ops, key) - a0,
                   Grants(cfg, ops, key) - g0);
  }

  /** Every closed window of length e - s, after any history, admits at most the capacity once, once more for each
      eviction of the key inside it, and one request per whole refill period. */
  lemma WindowBound(cfg: Config, ops: seq<Op>, key: Key, n: nat, s: int, e: int)
    requires ValidConfig(cfg) && Clocked(ops) && InWindow(ops, n, s, e)
    ensures Admitted(cfg, ops, key) - Admitted(cfg, ops[..n], key)
         <= (1 + Evictions(cfg, ops, key) - Evictions(cfg, ops[..n], key)) * cfg.capacity + (e - s) / cfg.refillPer
  {
    GrantsInWindow(cfg, ops, key, n);
    if |ops| > n {
      WindowBudget(cfg, ops, key, n, s, e);
      BudgetBound(cfg, Solo(cfg, ops, key), s, At(ops, s), e, Admitted(cfg, ops, key) - Admitted(cfg, ops[..n], key),
                  Grants(cfg, ops, key) - Grants(cfg, ops[..n], key));
    } else {
      assert ops[..n] == ops;
      DivNonNegative(e - s, cfg.refillPer);
    }
  }

  lemma GrantsInWindow(cfg: Config, ops: seq<Op>, key: Key, n: nat)
    requires ValidConfig(cfg) && n <= |ops|
    ensures (1 + Evictions(cfg, ops, key) - Evictions(cfg, ops[..n], key)) * cfg.capacity
         == cfg.capacity + Grants(cfg, ops, key) - Grants(cfg, ops[..n], key)
  {
    GrantsAreEvictions(cfg, ops, key);
    GrantsAreEvictions(cfg, ops[..n], key);
    Distribute(Evictions(cfg, ops, key), Evictions(cfg, ops[..n], key), cfg.capacity);
  }

  /** What the budget allows by the end of the window. */
  lemma BudgetBound(cfg: Config, b: Option<Bucket>, s: int, at: int, e: int, admitted: int, granted: int)
    requires ValidConfig(cfg) && WithinBudget(cfg, b, s, at, admitted, granted) && at <= e
    ensures admitted <= cfg.capacity + granted + (e - s) / cfg.refillPer
  {
    DivNonNegative(e - s, cfg.refillPer);
    DivMono(at - s, e - s, cfg.refillPer);
    if b.Some? && b.value.lastSeen.value >= s { DivMono(b.value.lastSeen.value - s, e - s, cfg.refillPer); }
  }

  /** ... and without an eviction inside it, no more than the capacity and one request per whole refill period. */
  lemma WindowBoundUnevicted(cfg: Config, ops: seq<Op>, key: Key, n: nat, s: int, e: int)
    requires ValidConfig(cfg) && Clocked(ops) && InWindow(ops, n, s, e)
    requires Evictions(cfg, ops, key) == Evictions(cfg, ops[..n], key)
    ensures Admitted(cfg, ops, key) - Admitted(cfg, ops[..n], key) <= cfg.capacity + (e - s) / cfg.refillPer
  {
    WindowBound(cfg, ops, key, n, s, e);
    assert 1 + Evictions(cfg, ops, key) - Evictions(cfg, ops[..n], key) == 1;
  }

  lemma Distribute(x: int, y: int, c: int)
    ensures (1 + x - y) * c == c + x * c - y * c
  {}
}
