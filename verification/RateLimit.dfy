/** The per-key token bucket of the rate limiter, on values. Times are integers in nanoseconds. */
module RateLimitModel {
  import opened Domain

  type Key = string

  /** time.Duration saturates here; time.Since of the zero time returns it. */
  const MAX_DURATION: int := 0x7FFF_FFFF_FFFF_FFFF
  const MAX_INT: int := 0x7FFF_FFFF_FFFF_FFFF
  const TEN_MINUTES: int := 600_000_000_000

  /** lastSeen is None for the zero time. */
  datatype Bucket = Bucket(tokens: int, lastSeen: Option<int>)

  datatype Config = Config(capacity: int, refillPer: int)

  /** Configurations whose token arithmetic does not overflow. */
  predicate ValidConfig(cfg: Config) {
    && cfg.capacity >= 1
    && 2 <= cfg.refillPer <= MAX_DURATION
    && cfg.capacity + MAX_DURATION / cfg.refillPer <= MAX_INT
  }

  function Min(a: int, b: int): int {
    if a < b then a else b
  }

  /** `time.Since(last)` read at now. */
  function Since(last: Option<int>, now: int): int {
    match last
    case None => MAX_DURATION
    case Some(t) => Min(MAX_DURATION, now - t)
  }

  /** Go's division of a duration truncates toward zero. */
  function Truncated(a: int, b: int): int
    requires b > 0
  {
    if a >= 0 then a / b else -(-a / b)
  }

  ghost function Refilled(cfg: Config, b: Bucket, t1: int, t2: int): Bucket
    requires ValidConfig(cfg)
  {
    var refilled := Truncated(Since(b.lastSeen, t1), cfg.refillPer);
    if refilled > 0 then Bucket(Min(cfg.capacity, b.tokens + refilled), Some(t2)) else b
  }

  /** One call for a key, found with bucket b or without one: t1 is the clock read for the elapsed time and t2 the one
      stored. */
  ghost function CallStep(cfg: Config, b: Option<Bucket>, t1: int, t2: int): (Bucket, bool)
    requires ValidConfig(cfg)
  {
    var found := if b.Some? then b.value else Bucket(cfg.capacity, None);
    var full := Refilled(cfg, found, t1, t2);
    if full.tokens <= 0 then (full, false)
    else (Bucket(full.tokens - 1, if full.lastSeen.None? then Some(t2) else full.lastSeen), true)
  }

  ghost predicate Stale(b: Bucket, t: int) {
    Since(b.lastSeen, t) > TEN_MINUTES
  }

  // ---------- The whole limiter ----------

  /** A sweep reads the clock anew for each key: `at` holds the readings, between t1 and t2. */
  datatype Op = Call(key: Key, t1: int, t2: int) | Sweep(t1: int, t2: int, at: map<Key, int>)

  function Reading(op: Op, key: Key): int
    requires op.Sweep?
  {
    if key in op.at then op.at[key] else op.t1
  }

  ghost function Lookup(buckets: map<Key, Bucket>, key: Key): Option<Bucket> {
    if key in buckets then Some(buckets[key]) else None
  }

  ghost function Next(cfg: Config, buckets: map<Key, Bucket>, op: Op): map<Key, Bucket>
    requires ValidConfig(cfg)
  {
    match op
    case Call(key, t1, t2) => buckets[key := CallStep(cfg, Lookup(buckets, key), t1, t2).0]
    case Sweep(_, _, _) => map k | k in buckets && !Stale(buckets[k], Reading(op, k)) :: buckets[k]
  }

  ghost function Run(cfg: Config, ops: seq<Op>): map<Key, Bucket>
    requires ValidConfig(cfg)
  {
    if ops == [] then map[] else Next(cfg, Run(cfg, ops[..|ops| - 1]), ops[|ops| - 1])
  }

  /** The answers given to one key's calls, in order. */
  ghost function Answers(cfg: Config, ops: seq<Op>, key: Key): seq<bool>
    requires ValidConfig(cfg)
  {
    if ops == [] then []
    else
      var before, op := ops[..|ops| - 1], ops[|ops| - 1];
      Answers(cfg, before, key) +
        if op.Call? && op.key == key then [CallStep(cfg, Lookup(Run(cfg, before), key), op.t1, op.t2).1] else []
  }

  function Begin(op: Op): int {
    op.t1
  }

  function End(op: Op): int {
    op.t2
  }

  /** The clock never goes back; the mutex orders the operations. */
  ghost predicate Clocked(ops: seq<Op>) {
    && (forall i :: 0 <= i < |ops| ==> Begin(ops[i]) <= End(ops[i]))
    && (forall i, k :: 0 <= i < |ops| && ops[i].Sweep? && k in ops[i].at ==> ops[i].t1 <= ops[i].at[k] <= ops[i].t2)
    && (forall i, j :: 0 <= i < j < |ops| ==> End(ops[i]) <= Begin(ops[j]))
  }

  // ---------- One key ----------

  ghost function SoloStep(cfg: Config, b: Option<Bucket>, op: Op, key: Key): Option<Bucket>
    requires ValidConfig(cfg)
  {
    match op
    case Call(k, t1, t2) => if k == key then Some(CallStep(cfg, b, t1, t2).0) else b
    case Sweep(_, _, _) => if b.Some? && Stale(b.value, Reading(op, key)) then None else b
  }

  /** The bucket of one key after a history. */
  ghost function Solo(cfg: Config, ops: seq<Op>, key: Key): Option<Bucket>
    requires ValidConfig(cfg)
  {
    if ops == [] then None else SoloStep(cfg, Solo(cfg, ops[..|ops| - 1], key), ops[|ops| - 1], key)
  }

  lemma {:induction false} SoloIsLookup(cfg: Config, ops: seq<Op>, key: Key)
    requires ValidConfig(cfg)
    ensures Lookup(Run(cfg, ops), key) == Solo(cfg, ops, key)
    decreases |ops|
  {
    if ops != [] { SoloIsLookup(cfg, ops[..|ops| - 1], key); }
  }

  /** The sweeps and the calls of one key. */
  ghost function Own(ops: seq<Op>, key: Key): seq<Op> {
    if ops == [] then []
    else if ops[|ops| - 1].Call? && ops[|ops| - 1].key != key then Own(ops[..|ops| - 1], key)
    else Own(ops[..|ops| - 1], key) + [ops[|ops| - 1]]
  }

  lemma Snoc(cfg: Config, ops: seq<Op>, op: Op, key: Key)
    requires ValidConfig(cfg)
    ensures (ops + [op])[..|ops|] == ops
    ensures Run(cfg, ops + [op]) == Next(cfg, Run(cfg, ops), op)
    ensures Answers(cfg, ops + [op], key) == Answers(cfg, ops, key) +
              if op.Call? && op.key == key then [CallStep(cfg, Lookup(Run(cfg, ops), key), op.t1, op.t2).1] else []
  {
    assert (ops + [op])[..|ops|] == ops;
  }

  lemma SoloSnoc(cfg: Config, ops: seq<Op>, op: Op, key: Key)
    requires ValidConfig(cfg)
    ensures Solo(cfg, ops + [op], key) == SoloStep(cfg, Solo(cfg, ops, key), op, key)
  {
    assert (ops + [op])[..|ops|] == ops;
  }

  /** Keys do not influence each other: a key's answers are those of a limiter that only sees that key's calls and
      the sweeps. */
  lemma {:induction false} KeysAreIsolated(cfg: Config, ops: seq<Op>, key: Key)
    requires ValidConfig(cfg)
    ensures Answers(cfg, ops, key) == Answers(cfg, Own(ops, key), key)
    ensures Lookup(Run(cfg, ops), key) == Lookup(Run(cfg, Own(ops, key)), key)
    decreases |ops|
  {
    if ops != [] {
      var before, op := ops[..|ops| - 1], ops[|ops| - 1];
      KeysAreIsolated(cfg, before, key);
      if op.Call? && op.key != key {
        assert Answers(cfg, before, key) + [] == Answers(cfg, before, key);
      } else {
        Snoc(cfg, Own(before, key), op, key);
      }
    }
  }

  ghost function Count(answers: seq<bool>): nat {
    if answers == [] then 0 else Count(answers[..|answers| - 1]) + if answers[|answers| - 1] then 1 else 0
  }

  lemma CountSnoc(answers: seq<bool>, a: bool)
    ensures Count(answers + [a]) == Count(answers) + if a then 1 else 0
  {
    assert (answers + [a])[..|answers|] == answers;
  }

  /** The requests of `key` admitted in a history. */
  ghost function Admitted(cfg: Config, ops: seq<Op>, key: Key): nat
    requires ValidConfig(cfg)
  {
    Count(Answers(cfg, ops, key))
  }

  lemma AdmittedSnoc(cfg: Config, ops: seq<Op>, op: Op, key: Key)
    requires ValidConfig(cfg)
    ensures Admitted(cfg, ops + [op], key) == Admitted(cfg, ops, key) +
              if op.Call? && op.key == key && CallStep(cfg, Solo(cfg, ops, key), op.t1, op.t2).1 then 1 else 0
    ensures Solo(cfg, ops + [op], key) == SoloStep(cfg, Solo(cfg, ops, key), op, key)
  {
    Snoc(cfg, ops, op, key);
    SoloIsLookup(cfg, ops, key);
    if op.Call? && op.key == key {
      CountSnoc(Answers(cfg, ops, key), CallStep(cfg, Solo(cfg, ops, key), op.t1, op.t2).1);
    } else {
      assert Answers(cfg, ops, key) + [] == Answers(cfg, ops, key);
    }
  }

  /** What holds of a stored bucket: fewer tokens than the capacity, seen no later than the clock. */
  ghost predicate Settled(cfg: Config, b: Bucket, now: int) {
    0 <= b.tokens <= cfg.capacity - 1 && b.lastSeen.Some? && b.lastSeen.value <= now
  }

  /** The last clock reading of a history. */
  ghost function Now(ops: seq<Op>): int
    requires ops != []
  {
    End(ops[|ops| - 1])
  }

  lemma CallSettles(cfg: Config, b: Option<Bucket>, t1: int, t2: int)
    requires ValidConfig(cfg) && t1 <= t2 && (b.Some? ==> Settled(cfg, b.value, t1))
    ensures Settled(cfg, CallStep(cfg, b, t1, t2).0, t2)
    ensures b.None? ==> CallStep(cfg, b, t1, t2) == (Bucket(cfg.capacity - 1, Some(t2)), true)
  {
    if b.None? {
      DivAtLeast(1, MAX_DURATION, cfg.refillPer);
    } else {
      DivNonNegative(Since(b.value.lastSeen, t1), cfg.refillPer);
    }
  }

  lemma DivAtLeast(q: int, n: int, p: int)
    requires p > 0 && q * p <= n
    ensures q <= n / p
  {
    assert n < (n / p + 1) * p;
    if n / p < q {
      MulMono(n / p + 1, q, p);
    }
  }

  lemma MulMono(a: int, b: int, p: int)
    requires a <= b && p >= 0
    ensures a * p <= b * p
  {}

  lemma DivNonNegative(n: int, p: int)
    requires p > 0 && n >= 0
    ensures 0 <= n / p && n / p * p <= n
  {}

  lemma {:induction false} RunSettles(cfg: Config, ops: seq<Op>, key: Key)
    requires ValidConfig(cfg) && Clocked(ops)
    ensures Solo(cfg, ops, key).Some? ==> ops != [] && Settled(cfg, Solo(cfg, ops, key).value, Now(ops))
    decreases |ops|
  {
    if ops != [] {
      var before, op := ops[..|ops| - 1], ops[|ops| - 1];
      RunSettles(cfg, before, key);
      if op.Call? && op.key == key {
        CallSettles(cfg, Solo(cfg, before, key), op.t1, op.t2);
      }
    }
  }
}
