/** Two comparisons: with the bucket that accrues fractions of a token exactly, and with a limiter that never evicts. */
module RateLimitIdeal {
  import opened Domain
  import opened RateLimitModel
  import opened RateLimitBounds

  // ---------- The exact bucket ----------

  /** The exact bucket counts in units of 1/refillPer of a token, one unit a nanosecond. */
  datatype Level = Level(units: int, at: int)

  ghost function Accrued(cfg: Config, x: Option<Level>, t: int): int {
    if x.None? then cfg.capacity * cfg.refillPer
    else Min(cfg.capacity * cfg.refillPer, x.value.units + (t - x.value.at))
  }

  ghost function IdealStep(cfg: Config, x: Option<Level>, t: int): (Level, bool) {
    var units := Accrued(cfg, x, t);
    if units >= cfg.refillPer then (Level(units - cfg.refillPer, t), true) else (Level(units, t), false)
  }

  ghost function Ideal(cfg: Config, ops: seq<Op>, key: Key): Option<Level> {
    if ops == [] then None
    else
      var before, op := Ideal(cfg, ops[..|ops| - 1], key), ops[|ops| - 1];
      if op.Call? && op.key == key then Some(IdealStep(cfg, before, op.t1).0) else before
  }

  ghost function IdealAdmitted(cfg: Config, ops: seq<Op>, key: Key): nat {
    if ops == [] then 0
    else
      var before, op := ops[..|ops| - 1], ops[|ops| - 1];
      IdealAdmitted(cfg, before, key) +
        if op.Call? && op.key == key && IdealStep(cfg, Ideal(cfg, before, key), op.t1).1 then 1 else 0
  }

  /** n whole tokens in units; n * p by WholeIsProduct. */
  ghost function Whole(n: int, p: int): int
    decreases n
  {
    if n <= 0 then 0 else Whole(n - 1, p) + p
  }

  lemma {:induction false} WholeIsProduct(n: int, p: int)
    requires n >= 0
    ensures Whole(n, p) == n * p
    decreases n
  {
    if n > 0 {
      WholeIsProduct(n - 1, p);
      assert n * p == (n - 1) * p + p;
    }
  }

  lemma {:induction false} WholeSum(a: int, b: int, p: int)
    requires a >= 0 && b >= 0 && p >= 0
    ensures Whole(a + b, p) == Whole(a, p) + Whole(b, p) && Whole(b, p) >= 0
    decreases b
  {
    if b > 0 {
      WholeSum(a, b - 1, p);
      assert a + b - 1 == a + (b - 1);
    }
  }

  lemma WholeMono(a: int, b: int, p: int)
    requires 0 <= a <= b && p >= 0
    ensures Whole(a, p) <= Whole(b, p)
  {
    WholeSum(a, b - a, p);
    assert a + (b - a) == b;
  }

  lemma WholeQuotient(n: int, p: int)
    requires n >= 0 && p > 0
    ensures 0 <= n / p && Whole(n / p, p) <= n
  {
    DivNonNegative(n, p);
    WholeIsProduct(n / p, p);
  }

  /** The bucket's tokens and the fraction it has not credited yet, in units, as of time t. */
  ghost function Potential(cfg: Config, b: Bucket, t: int): int
    requires b.lastSeen.Some?
  {
    Whole(b.tokens, cfg.refillPer) + if t >= b.lastSeen.value then t - b.lastSeen.value else 0
  }

  /** The exact bucket is ahead by `gap` admissions, and its level plus the gap covers the real bucket's potential. */
  ghost predicate Ahead(cfg: Config, b: Option<Bucket>, x: Option<Level>, gap: int) {
    && gap >= 0
    && (b.None? <==> x.None?)
    && (b.Some? ==>
          && b.value.lastSeen.Some?
          && x.value.units + Whole(gap, cfg.refillPer) >= Potential(cfg, b.value, x.value.at))
  }

  /** Before the admission of a call: the refilled bucket's potential is covered by the accrued level and the gap. */
  lemma RefillCovered(cfg: Config, b: Bucket, x: Level, gap: int, t1: int, t2: int)
    requires ValidConfig(cfg) && Settled(cfg, b, t1) && x.at <= t1 <= t2 && Ahead(cfg, Some(b), Some(x), gap)
    ensures var full := Refilled(cfg, b, t1, t2);
            && full.lastSeen.Some? && full.tokens >= 0
            && Accrued(cfg, Some(x), t1) + Whole(gap, cfg.refillPer) >= Potential(cfg, full, t1)
  {
    var p, elapsed := cfg.refillPer, Since(b.lastSeen, t1);
    WholeQuotient(elapsed, p);
    WholeIsProduct(cfg.capacity, p);
    WholeMono(0, gap, p);
    var gain := elapsed / p;
    if gain > 0 {
      WholeSum(b.tokens, gain, p);
      WholeMono(Min(cfg.capacity, b.tokens + gain), cfg.capacity, p);
      WholeMono(Min(cfg.capacity, b.tokens + gain), b.tokens + gain, p);
    } else {
      if p <= elapsed { DivAtLeast(1, elapsed, p); }
      WholeMono(b.tokens + 1, cfg.capacity, p);
    }
  }

  /** Spending from a bucket whose potential is covered, against spending from the exact level. */
  lemma SpendKeepsAhead(p: int, potential: int, units: int, gap: int, ok: bool)
    requires p > 0 && gap >= 0 && units + Whole(gap, p) >= potential && (ok ==> potential >= p)
    ensures var ideal := units >= p;
            var gap' := gap + (if ideal then 1 else 0) - (if ok then 1 else 0);
            && gap' >= 0
            && (if ideal then units - p else units) + Whole(gap', p) >= if ok then potential - p else potential
  {
    assert Whole(gap + 1, p) == Whole(gap, p) + p;
  }

  /** One call keeps the exact bucket ahead. */
  lemma CallKeepsAhead(cfg: Config, b: Option<Bucket>, x: Option<Level>, gap: int, t1: int, t2: int)
    requires ValidConfig(cfg) && t1 <= t2 && Ahead(cfg, b, x, gap)
    requires b.Some? ==> Settled(cfg, b.value, t1) && x.value.at <= t1
    ensures var (b', ok) := CallStep(cfg, b, t1, t2);
            var (x', ideal) := IdealStep(cfg, x, t1);
            Ahead(cfg, Some(b'), Some(x'), gap + (if ideal then 1 else 0) - (if ok then 1 else 0)) && x'.at == t1
  {
    var p := cfg.refillPer;
    if b.None? {
      CallSettles(cfg, b, t1, t2);
      WholeIsProduct(cfg.capacity, p);
      WholeMono(1, cfg.capacity, p);
      WholeMono(0, gap, p);
      SpendKeepsAhead(p, Whole(cfg.capacity, p), Whole(cfg.capacity, p), gap, true);
    } else {
      RefillCovered(cfg, b.value, x.value, gap, t1, t2);
      var full := Refilled(cfg, b.value, t1, t2);
      if full.tokens > 0 { WholeMono(1, full.tokens, p); }
      SpendKeepsAhead(p, Potential(cfg, full, t1), Accrued(cfg, x, t1), gap, full.tokens > 0);
    }
  }

  lemma IdealSnoc(cfg: Config, ops: seq<Op>, op: Op, key: Key)
    requires op.Call? && op.key == key
    ensures Ideal(cfg, ops + [op], key) == Some(IdealStep(cfg, Ideal(cfg, ops, key), op.t1).0)
    ensures IdealAdmitted(cfg, ops + [op], key) == IdealAdmitted(cfg, ops, key)
              + if IdealStep(cfg, Ideal(cfg, ops, key), op.t1).1 then 1 else 0
  {
    assert (ops + [op])[..|ops|] == ops;
  }

  lemma OthersKeepIdeal(cfg: Config, ops: seq<Op>, op: Op, key: Key)
    requires ValidConfig(cfg) && !(op.Call? && op.key == key)
    ensures Ideal(cfg, ops + [op], key) == Ideal(cfg, ops, key)
    ensures IdealAdmitted(cfg, ops + [op], key) == IdealAdmitted(cfg, ops, key)
    ensures Evictions(cfg, ops + [op], key) == 0 ==> Solo(cfg, ops + [op], key) == Solo(cfg, ops, key)
  {
    assert (ops + [op])[..|ops|] == ops;
  }

  ghost function Gap(cfg: Config, ops: seq<Op>, key: Key): int
    requires ValidConfig(cfg)
  {
    IdealAdmitted(cfg, ops, key) - Admitted(cfg, ops, key)
  }

  lemma CallStaysAhead(cfg: Config, ops: seq<Op>, op: Op, key: Key)
    requires ValidConfig(cfg) && op.Call? && op.key == key && op.t1 <= op.t2
    requires Ahead(cfg, Solo(cfg, ops, key), Ideal(cfg, ops, key), Gap(cfg, ops, key))
    requires Solo(cfg, ops, key).Some? ==>
             Settled(cfg, Solo(cfg, ops, key).value, op.t1) && Ideal(cfg, ops, key).value.at <= op.t1
    ensures Ahead(cfg, Solo(cfg, ops + [op], key), Ideal(cfg, ops + [op], key), Gap(cfg, ops + [op], key))
    ensures Ideal(cfg, ops + [op], key).Some? && Ideal(cfg, ops + [op], key).value.at == op.t1
  {
    CallTerms(cfg, ops, op, key);
    CallKeepsAhead(cfg, Solo(cfg, ops, key), Ideal(cfg, ops, key), Gap(cfg, ops, key), op.t1, op.t2);
  }

  lemma CallTerms(cfg: Config, ops: seq<Op>, op: Op, key: Key)
    requires ValidConfig(cfg) && op.Call? && op.key == key
    ensures var (b, ok) := CallStep(cfg, Solo(cfg, ops, key), op.t1, op.t2);
            var (x, ideal) := IdealStep(cfg, Ideal(cfg, ops, key), op.t1);
            && Solo(cfg, ops + [op], key) == Some(b) && Ideal(cfg, ops + [op], key) == Some(x)
            && Gap(cfg, ops + [op], key) == Gap(cfg, ops, key) + (if ideal then 1 else 0) - (if ok then 1 else 0)
  {
    AdmittedSnoc(cfg, ops, op, key);
    IdealSnoc(cfg, ops, op, key);
    SoloSnoc(cfg, ops, op, key);
  }

  lemma ClockedSnoc(ops: seq<Op>, op: Op)
    requires Clocked(ops + [op])
    ensures Clocked(ops) && Begin(op) <= End(op) && (ops != [] ==> Now(ops) <= Begin(op))
  {
    var all := ops + [op];
    assert all[|ops|] == op && forall i :: 0 <= i < |ops| ==> all[i] == ops[i];
  }

  lemma StepStaysAhead(cfg: Config, ops: seq<Op>, op: Op, key: Key)
    requires ValidConfig(cfg) && Clocked(ops + [op]) && Evictions(cfg, ops + [op], key) == 0
    requires Ahead(cfg, Solo(cfg, ops, key), Ideal(cfg, ops, key), Gap(cfg, ops, key))
    requires Ideal(cfg, ops, key).Some? ==> ops != [] && Ideal(cfg, ops, key).value.at <= Now(ops)
    ensures Ahead(cfg, Solo(cfg, ops + [op], key), Ideal(cfg, ops + [op], key), Gap(cfg, ops + [op], key))
    ensures Ideal(cfg, ops + [op], key).Some? ==> Ideal(cfg, ops + [op], key).value.at <= End(op)
  {
    ClockedSnoc(ops, op);
    if op.Call? && op.key == key {
      SettledBefore(cfg, ops, op, key);
      CallStaysAhead(cfg, ops, op, key);
    } else {
      OthersKeepGap(cfg, ops, op, key);
    }
  }

  lemma SettledBefore(cfg: Config, ops: seq<Op>, op: Op, key: Key)
    requires ValidConfig(cfg) && Clocked(ops + [op])
    ensures Solo(cfg, ops, key).Some? ==> Settled(cfg, Solo(cfg, ops, key).value, Begin(op))
  {
    ClockedSnoc(ops, op);
    RunSettles(cfg, ops, key);
  }

  lemma OthersKeepGap(cfg: Config, ops: seq<Op>, op: Op, key: Key)
    requires ValidConfig(cfg) && !(op.Call? && op.key == key) && Evictions(cfg, ops + [op], key) == 0
    ensures Solo(cfg, ops + [op], key) == Solo(cfg, ops, key) && Ideal(cfg, ops + [op], key) == Ideal(cfg, ops, key)
    ensures Gap(cfg, ops + [op], key) == Gap(cfg, ops, key)
  {
    AdmittedSnoc(cfg, ops, op, key);
    OthersKeepIdeal(cfg, ops, op, key);
  }

  lemma {:induction false} StaysAhead(cfg: Config, ops: seq<Op>, key: Key)
    requires ValidConfig(cfg) && Clocked(ops) && Evictions(cfg, ops, key) == 0
    ensures Ahead(cfg, Solo(cfg, ops, key), Ideal(cfg, ops, key), Gap(cfg, ops, key))
    ensures Ideal(cfg, ops, key).Some? ==> ops != [] && Ideal(cfg, ops, key).value.at <= Now(ops)
    decreases |ops|
  {
    if ops != [] {
      var before, op := ops[..|ops| - 1], ops[|ops| - 1];
      assert ops == before + [op];
      StaysAhead(cfg, before, key);
      StepStaysAhead(cfg, before, op, key);
    }
  }

  /** The limiter never lets through more of a key's requests than the exact bucket of the same capacity and rate, as
      long as the key was not evicted. Every prefix of a history is a history, so this holds at all times. */
  lemma DominatedByExact(cfg: Config, ops: seq<Op>, key: Key)
    requires ValidConfig(cfg) && Clocked(ops) && Evictions(cfg, ops, key) == 0
    ensures Admitted(cfg, ops, key) <= IdealAdmitted(cfg, ops, key)
  {
    StaysAhead(cfg, ops, key);
  }

  // ---------- Eviction ----------

  ghost function NoSweeps(ops: seq<Op>): seq<Op> {
    if ops == [] then [] else NoSweeps(ops[..|ops| - 1]) + if ops[|ops| - 1].Sweep? then [] else [ops[|ops| - 1]]
  }

  /** Sweeping changes no answer on any history of calls and sweeps. */
  ghost predicate EvictionInvisible(cfg: Config)
    requires ValidConfig(cfg)
  {
    forall ops, key | Clocked(ops) :: Answers(cfg, ops, key) == Answers(cfg, NoSweeps(ops), key)
  }

  /** The swept limiter has the same bucket, or lost one that would be full at the next call. */
  ghost predicate Simulates(cfg: Config, swept: Option<Bucket>, kept: Option<Bucket>, now: int) {
    || swept == kept
    || (swept.None? && kept.Some? && Settled(cfg, kept.value, now)
        && now - kept.value.lastSeen.value >= TEN_MINUTES + 1)
  }

  lemma CallSimulates(cfg: Config, swept: Option<Bucket>, kept: Option<Bucket>, t1: int, t2: int)
    requires ValidConfig(cfg) && cfg.capacity * cfg.refillPer <= TEN_MINUTES + 1 && t1 <= t2
    requires Simulates(cfg, swept, kept, t1)
    ensures CallStep(cfg, swept, t1, t2) == CallStep(cfg, kept, t1, t2)
  {
    if swept != kept {
      CallSettles(cfg, swept, t1, t2);
      DivAtLeast(cfg.capacity, Since(kept.value.lastSeen, t1), cfg.refillPer);
    }
  }

  lemma StepSimulates(cfg: Config, swept: Option<Bucket>, kept: Option<Bucket>, now: int, op: Op, key: Key)
    requires ValidConfig(cfg) && cfg.capacity * cfg.refillPer <= TEN_MINUTES + 1
    requires now <= Begin(op) <= End(op) && Simulates(cfg, swept, kept, now)
    requires swept.Some? ==> Settled(cfg, swept.value, now)
    requires op.Sweep? ==> op.t1 <= Reading(op, key) <= op.t2
    ensures Simulates(cfg, SoloStep(cfg, swept, op, key),
                      if op.Call? then SoloStep(cfg, kept, op, key) else kept, End(op))
  {
    if op.Call? && op.key == key { CallSimulates(cfg, swept, kept, op.t1, op.t2); }
  }

  lemma KeptStep(cfg: Config, ops: seq<Op>, op: Op, key: Key)
    requires ValidConfig(cfg)
    ensures Solo(cfg, NoSweeps(ops + [op]), key)
         == if op.Call? then SoloStep(cfg, Solo(cfg, NoSweeps(ops), key), op, key) else Solo(cfg, NoSweeps(ops), key)
  {
    assert (ops + [op])[..|ops|] == ops;
    if op.Call? { SoloSnoc(cfg, NoSweeps(ops), op, key); } else { assert NoSweeps(ops) + [] == NoSweeps(ops); }
  }

  lemma {:induction false} SweptSimulates(cfg: Config, ops: seq<Op>, key: Key)
    requires ValidConfig(cfg) && cfg.capacity * cfg.refillPer <= TEN_MINUTES + 1 && Clocked(ops)
    ensures ops == [] ==> Solo(cfg, ops, key) == Solo(cfg, NoSweeps(ops), key)
    ensures ops != [] ==> Simulates(cfg, Solo(cfg, ops, key), Solo(cfg, NoSweeps(ops), key), Now(ops))
    decreases |ops|
  {
    if ops != [] {
      var before, op := ops[..|ops| - 1], ops[|ops| - 1];
      var swept, kept := Solo(cfg, before, key), Solo(cfg, NoSweeps(before), key);
      var now := if before == [] then Begin(op) else Now(before);
      SweptSimulates(cfg, before, key);
      RunSettles(cfg, before, key);
      StepSimulates(cfg, swept, kept, now, op, key);
      assert ops == before + [op];
      KeptStep(cfg, before, op, key);
    }
  }

  lemma {:induction false} SameAnswers(cfg: Config, ops: seq<Op>, key: Key)
    requires ValidConfig(cfg) && cfg.capacity * cfg.refillPer <= TEN_MINUTES + 1 && Clocked(ops)
    ensures Answers(cfg, ops, key) == Answers(cfg, NoSweeps(ops), key)
    decreases |ops|
  {
    if ops != [] {
      var before, op := ops[..|ops| - 1], ops[|ops| - 1];
      SameAnswers(cfg, before, key);
      SweptSimulates(cfg, before, key);
      SoloIsLookup(cfg, before, key);
      SoloIsLookup(cfg, NoSweeps(before), key);
      if op.Call? {
        Snoc(cfg, NoSweeps(before), op, key);
        if op.key == key {
          CallSimulates(cfg, Solo(cfg, before, key), Solo(cfg, NoSweeps(before), key), op.t1, op.t2);
        }
      } else {
        assert NoSweeps(before) + [] == NoSweeps(before);
        assert Answers(cfg, before, key) + [] == Answers(cfg, before, key);
      }
    }
  }

  // ---------- The differing run ----------

  ghost function Burst(key: Key, n: nat, t: int): (ops: seq<Op>)
    ensures |ops| == n && forall i :: 0 <= i < n ==> ops[i] == Call(key, t, t)
  {
    if n == 0 then [] else Burst(key, n - 1, t) + [Call(key, t, t)]
  }

  lemma SameInstant(cfg: Config, tokens: int, t: int)
    requires ValidConfig(cfg) && tokens >= 1
    ensures CallStep(cfg, Some(Bucket(tokens, Some(t))), t, t) == (Bucket(tokens - 1, Some(t)), true)
  {
    assert 0 / cfg.refillPer == 0;
  }

  /** A fresh key is granted its whole capacity at once. */
  lemma {:induction false} FreshBurst(cfg: Config, ops: seq<Op>, key: Key, n: nat, t: int)
    requires ValidConfig(cfg) && Solo(cfg, ops, key).None? && n <= cfg.capacity
    ensures Admitted(cfg, ops + Burst(key, n, t), key) == Admitted(cfg, ops, key) + n
    ensures Solo(cfg, ops + Burst(key, n, t), key) == if n == 0 then None else Some(Bucket(cfg.capacity - n, Some(t)))
    decreases n
  {
    if n == 0 {
      assert ops + Burst(key, 0, t) == ops;
    } else {
      var sofar := ops + Burst(key, n - 1, t);
      FreshBurst(cfg, ops, key, n - 1, t);
      assert ops + Burst(key, n, t) == sofar + [Call(key, t, t)];
      FreshCall(cfg, Solo(cfg, sofar, key), n, t);
      CallAdmitted(cfg, sofar, key, t, Bucket(cfg.capacity - n, Some(t)));
    }
  }

  lemma CallAdmitted(cfg: Config, ops: seq<Op>, key: Key, t: int, b: Bucket)
    requires ValidConfig(cfg) && CallStep(cfg, Solo(cfg, ops, key), t, t) == (b, true)
    ensures Admitted(cfg, ops + [Call(key, t, t)], key) == Admitted(cfg, ops, key) + 1
    ensures Solo(cfg, ops + [Call(key, t, t)], key) == Some(b)
  {
    AdmittedSnoc(cfg, ops, Call(key, t, t), key);
  }

  /** The n-th call of a burst. */
  lemma FreshCall(cfg: Config, b: Option<Bucket>, n: nat, t: int)
    requires ValidConfig(cfg) && 1 <= n <= cfg.capacity
    requires b == if n == 1 then None else Some(Bucket(cfg.capacity - (n - 1), Some(t)))
    ensures CallStep(cfg, b, t, t) == (Bucket(cfg.capacity - n, Some(t)), true)
  {
    if n == 1 { CallSettles(cfg, None, t, t); } else { SameInstant(cfg, cfg.capacity - (n - 1), t); }
  }

  /** One call a refill period, n times, from time 0 on. */
  ghost function Steady(key: Key, n: nat, p: int): seq<Op> {
    if n == 0 then [] else Steady(key, n - 1, p) + [Call(key, n * p, n * p)]
  }

  /** An empty bucket last refilled one period ago has a token again. */
  lemma OnePeriodLater(cfg: Config, n: nat)
    requires ValidConfig(cfg)
    ensures var p := cfg.refillPer;
            CallStep(cfg, Some(Bucket(0, Some(n * p))), (n + 1) * p, (n + 1) * p)
              == (Bucket(0, Some((n + 1) * p)), true)
  {
    var p := cfg.refillPer;
    assert (n + 1) * p - n * p == p;
    assert p / p == 1;
  }

  lemma {:induction false} SteadyAdmitted(cfg: Config, ops: seq<Op>, key: Key, n: nat)
    requires ValidConfig(cfg) && Solo(cfg, ops, key) == Some(Bucket(0, Some(0)))
    ensures Admitted(cfg, ops + Steady(key, n, cfg.refillPer), key) == Admitted(cfg, ops, key) + n
    ensures Solo(cfg, ops + Steady(key, n, cfg.refillPer), key) == Some(Bucket(0, Some(n * cfg.refillPer)))
    decreases n
  {
    var p := cfg.refillPer;
    if n == 0 {
      assert ops + Steady(key, 0, p) == ops;
    } else {
      var sofar := ops + Steady(key, n - 1, p);
      SteadyAdmitted(cfg, ops, key, n - 1);
      SteadySnoc(ops, key, n, p);
      SteadyCall(cfg, sofar, key, n);
    }
  }

  lemma SteadySnoc(ops: seq<Op>, key: Key, n: nat, p: int)
    requires n > 0
    ensures ops + Steady(key, n, p) == ops + Steady(key, n - 1, p) + [Call(key, n * p, n * p)]
  {}

  lemma SteadyCall(cfg: Config, ops: seq<Op>, key: Key, n: nat)
    requires ValidConfig(cfg) && n > 0 && Solo(cfg, ops, key) == Some(Bucket(0, Some((n - 1) * cfg.refillPer)))
    ensures var call := Call(key, n * cfg.refillPer, n * cfg.refillPer);
            && Admitted(cfg, ops + [call], key) == Admitted(cfg, ops, key) + 1
            && Solo(cfg, ops + [call], key) == Some(Bucket(0, Some(n * cfg.refillPer)))
  {
    OnePeriodLater(cfg, n - 1);
    CallAdmitted(cfg, ops, key, n * cfg.refillPer, Bucket(0, Some(n * cfg.refillPer)));
  }

  lemma {:induction false} SteadyTimes(key: Key, n: nat, p: int)
    requires p > 0
    ensures |Steady(key, n, p)| == n
    ensures forall i :: 0 <= i < n ==> Steady(key, n, p)[i] == Call(key, (i + 1) * p, (i + 1) * p)
    decreases n
  {
    if n > 0 { SteadyTimes(key, n - 1, p); }
  }

  lemma SteadyClocked(key: Key, burst: nat, n: nat, p: int)
    requires p > 0
    ensures var ops := Burst(key, burst, 0) + Steady(key, n, p);
            Clocked(ops) && InWindow(ops, 0, 0, n * p)
  {
    SteadyTimes(key, n, p);
    var ops := Burst(key, burst, 0) + Steady(key, n, p);
    MulMono(0, n, p);
    forall i | 0 <= i < |ops| ensures Begin(ops[i]) == End(ops[i]) == (if i < burst then 0 else (i - burst + 1) * p) {}
    forall i, j | 0 <= i < j < |ops| ensures End(ops[i]) <= Begin(ops[j]) {
      if j >= burst { MulMono(if i < burst then 0 else i - burst + 1, j - burst + 1, p); }
    }
    forall i | 0 <= i < |ops| ensures 0 <= Begin(ops[i]) && End(ops[i]) <= n * p {
      if i >= burst { MulMono(0, i - burst + 1, p); MulMono(i - burst + 1, n, p); }
    }
  }

  /** The window bound is attained: for every n there is a window of n refill periods that admits the capacity and n
      requests more, without any eviction. */
  lemma WindowBoundIsTight(cfg: Config, key: Key, n: nat) returns (ops: seq<Op>)
    requires ValidConfig(cfg)
    ensures Clocked(ops) && InWindow(ops, 0, 0, n * cfg.refillPer) && Evictions(cfg, ops, key) == 0
    ensures Admitted(cfg, ops, key) == cfg.capacity + n
  {
    var burst := Burst(key, cfg.capacity, 0);
    ops := burst + Steady(key, n, cfg.refillPer);
    FreshBurst(cfg, [], key, cfg.capacity, 0);
    assert [] + burst == burst;
    SteadyAdmitted(cfg, burst, key, n);
    SteadyClocked(key, cfg.capacity, n, cfg.refillPer);
    SteadyTimes(key, n, cfg.refillPer);
    NeverEvicted(cfg, ops, key);
  }

  /** A sweep that takes no time. */
  ghost function SweepAt(t: int): Op {
    Sweep(t, t, map[])
  }

  ghost function DrainedThenSwept(cfg: Config, key: Key): seq<Op>
    requires ValidConfig(cfg)
  {
    Burst(key, cfg.capacity, 0) + [SweepAt(TEN_MINUTES + 1)] + Burst(key, cfg.capacity, TEN_MINUTES + 1)
  }

  lemma {:induction false} NoSweepsConcat(a: seq<Op>, b: seq<Op>)
    ensures NoSweeps(a + b) == NoSweeps(a) + NoSweeps(b)
    decreases |b|
  {
    if b == [] {
      assert a + b == a;
    } else {
      NoSweepsConcat(a, b[..|b| - 1]);
      assert (a + b)[..|a + b| - 1] == a + b[..|b| - 1];
    }
  }

  lemma {:induction false} NoSweepsBurst(key: Key, n: nat, t: int)
    ensures NoSweeps(Burst(key, n, t)) == Burst(key, n, t)
    decreases n
  {
    if n > 0 {
      assert Burst(key, n, t)[..n - 1] == Burst(key, n - 1, t);
      NoSweepsBurst(key, n - 1, t);
    }
  }

  lemma Drained(cfg: Config, key: Key)
    requires ValidConfig(cfg)
    ensures var first := Burst(key, cfg.capacity, 0);
            Admitted(cfg, first, key) == cfg.capacity && Solo(cfg, first, key) == Some(Bucket(0, Some(0)))
  {
    FreshBurst(cfg, [], key, cfg.capacity, 0);
    assert [] + Burst(key, cfg.capacity, 0) == Burst(key, cfg.capacity, 0);
  }

  lemma DrainedAndSwept(cfg: Config, key: Key)
    requires ValidConfig(cfg)
    ensures var ops := Burst(key, cfg.capacity, 0) + [SweepAt(TEN_MINUTES + 1)];
            Admitted(cfg, ops, key) == cfg.capacity && Solo(cfg, ops, key) == None
  {
    Drained(cfg, key);
    AdmittedSnoc(cfg, Burst(key, cfg.capacity, 0), SweepAt(TEN_MINUTES + 1), key);
    SoloSnoc(cfg, Burst(key, cfg.capacity, 0), SweepAt(TEN_MINUTES + 1), key);
  }

  lemma SweptCount(cfg: Config, key: Key)
    requires ValidConfig(cfg)
    ensures Admitted(cfg, DrainedThenSwept(cfg, key), key) == 2 * cfg.capacity
  {
    var first := Burst(key, cfg.capacity, 0);
    DrainedAndSwept(cfg, key);
    FreshBurst(cfg, first + [SweepAt(TEN_MINUTES + 1)], key, cfg.capacity, TEN_MINUTES + 1);
  }

  lemma KeptHistory(cfg: Config, key: Key)
    requires ValidConfig(cfg)
    ensures NoSweeps(DrainedThenSwept(cfg, key))
         == Burst(key, cfg.capacity, 0) + Burst(key, cfg.capacity, TEN_MINUTES + 1)
  {
    var first, second, sweep := Burst(key, cfg.capacity, 0), Burst(key, cfg.capacity, TEN_MINUTES + 1),
        [SweepAt(TEN_MINUTES + 1)];
    NoSweepsConcat(first + sweep, second);
    NoSweepsConcat(first, sweep);
    NoSweepsBurst(key, cfg.capacity, 0);
    NoSweepsBurst(key, cfg.capacity, TEN_MINUTES + 1);
    assert NoSweeps(sweep) == [] by { assert sweep[..0] == []; }
    assert first + [] == first;
  }

  lemma TooFewRefills(n: int, c: int, p: int)
    requires p > 0 && 0 <= n < c * p
    ensures n / p < c
  {
    DivNonNegative(n, p);
    if n / p >= c { MulMono(c, n / p, p); }
  }

  lemma TwoBursts(key: Key, n: nat, late: int)
    requires late >= 0
    ensures Clocked(Burst(key, n, 0) + Burst(key, n, late))
            && InWindow(Burst(key, n, 0) + Burst(key, n, late), 0, 0, late)
  {}

  lemma KeptCount(cfg: Config, key: Key)
    requires ValidConfig(cfg) && cfg.capacity * cfg.refillPer > TEN_MINUTES + 1
    ensures Admitted(cfg, NoSweeps(DrainedThenSwept(cfg, key)), key) < 2 * cfg.capacity
  {
    var late := TEN_MINUTES + 1;
    var ops := Burst(key, cfg.capacity, 0) + Burst(key, cfg.capacity, late);
    TooFewRefills(late, cfg.capacity, cfg.refillPer);
    KeptHistory(cfg, key);
    TwoBursts(key, cfg.capacity, late);
    UnsweptBound(cfg, ops, key, late);
  }

  lemma UnsweptBound(cfg: Config, ops: seq<Op>, key: Key, e: int)
    requires ValidConfig(cfg) && Clocked(ops) && InWindow(ops, 0, 0, e) && forall i :: 0 <= i < |ops| ==> ops[i].Call?
    ensures Admitted(cfg, ops, key) <= cfg.capacity + e / cfg.refillPer
  {
    NeverEvicted(cfg, ops, key);
    assert ops[..0] == [];
    WindowBoundUnevicted(cfg, ops, key, 0, 0, e);
  }

  lemma {:induction false} NeverEvicted(cfg: Config, ops: seq<Op>, key: Key)
    requires ValidConfig(cfg) && forall i :: 0 <= i < |ops| ==> ops[i].Call?
    ensures Evictions(cfg, ops, key) == 0
    decreases |ops|
  {
    if ops != [] { NeverEvicted(cfg, ops[..|ops| - 1], key); }
  }

  /** Drain a key, sweep it one nanosecond after ten minutes and call again: the swept limiter grants the whole
      capacity a second time, the other one only the refills of ten minutes. */
  lemma SweepGrantsAgain(cfg: Config, key: Key)
    requires ValidConfig(cfg) && cfg.capacity * cfg.refillPer > TEN_MINUTES + 1
    ensures var ops := DrainedThenSwept(cfg, key);
            && Clocked(ops)
            && Admitted(cfg, ops, key) == 2 * cfg.capacity
            && Admitted(cfg, NoSweeps(ops), key) < 2 * cfg.capacity
  {
    SweptCount(cfg, key);
    KeptCount(cfg, key);
  }

  /** The sweep is invisible exactly when a bucket refills completely within ten minutes and one nanosecond. */
  lemma EvictionInvisibleIff(cfg: Config)
    requires ValidConfig(cfg)
    ensures EvictionInvisible(cfg) <==> cfg.capacity * cfg.refillPer <= 600_000_000_001
  {
    if cfg.capacity * cfg.refillPer <= TEN_MINUTES + 1 {
      forall ops, key | Clocked(ops) ensures Answers(cfg, ops, key) == Answers(cfg, NoSweeps(ops), key) {
        SameAnswers(cfg, ops, key);
      }
    } else {
      SweepGrantsAgain(cfg, "");
      assert Answers(cfg, DrainedThenSwept(cfg, ""), "") != Answers(cfg, NoSweeps(DrainedThenSwept(cfg, "")), "");
    }
  }

  const GLOBAL_LIMIT := Config(200, 300_000_000)
  const REFRESH_LIMIT := Config(30, 2_000_000_000)
  const CREDENTIAL_LIMIT := Config(5, 180_000_000_000)
  const DEMO_LIMIT := Config(20, 60_000_000_000)

  /** The limits the server configures: the sweep cannot be noticed with the first two and can with the others. */
  lemma ConfiguredLimits()
    ensures ValidConfig(GLOBAL_LIMIT) && EvictionInvisible(GLOBAL_LIMIT)
    ensures ValidConfig(REFRESH_LIMIT) && EvictionInvisible(REFRESH_LIMIT)
    ensures ValidConfig(CREDENTIAL_LIMIT) && !EvictionInvisible(CREDENTIAL_LIMIT)
    ensures ValidConfig(DEMO_LIMIT) && !EvictionInvisible(DEMO_LIMIT)
  {
    EvictionInvisibleIff(GLOBAL_LIMIT);
    EvictionInvisibleIff(REFRESH_LIMIT);
    EvictionInvisibleIff(CREDENTIAL_LIMIT);
    EvictionInvisibleIff(DEMO_LIMIT);
  }
}
