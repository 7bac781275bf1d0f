/** What the limiter has to let through: the lower bounds beside the upper bounds of RateLimitBounds. */
module RateLimitAdmits {
  import opened Domain
  import opened RateLimitModel
  import opened RateLimitBounds

  ghost predicate IsCall(ops: seq<Op>, key: Key, i: nat) {
    i < |ops| && ops[i].Call? && ops[i].key == key
  }

  /** The key's bucket before operation n. */
  ghost function BucketAt(cfg: Config, ops: seq<Op>, key: Key, n: nat): Option<Bucket>
    requires ValidConfig(cfg) && n <= |ops|
  {
    if n == 0 then None else SoloStep(cfg, BucketAt(cfg, ops, key, n - 1), ops[n - 1], key)
  }

  lemma {:induction false} BucketIsSolo(cfg: Config, ops: seq<Op>, key: Key, n: nat)
    requires ValidConfig(cfg) && n <= |ops|
    ensures BucketAt(cfg, ops, key, n) == Solo(cfg, ops[..n], key)
  {
    if n > 0 {
      BucketIsSolo(cfg, ops, key, n - 1);
      assert ops[..n] == ops[..n - 1] + [ops[n - 1]];
      SoloSnoc(cfg, ops[..n - 1], ops[n - 1], key);
    }
  }

  /** Operation i is a call of the key that is let through. */
  ghost predicate AdmittedAt(cfg: Config, ops: seq<Op>, key: Key, i: nat)
    requires ValidConfig(cfg)
  {
    IsCall(ops, key, i) && CallStep(cfg, BucketAt(cfg, ops, key, i), ops[i].t1, ops[i].t2).1
  }

  ghost predicate RefusedAt(cfg: Config, ops: seq<Op>, key: Key, i: nat)
    requires ValidConfig(cfg)
  {
    IsCall(ops, key, i) && !AdmittedAt(cfg, ops, key, i)
  }

  /** How many of the operations from m on and before n are calls of the key that are let through. */
  ghost function AdmittedIn(cfg: Config, ops: seq<Op>, key: Key, m: nat, n: nat): nat
    requires ValidConfig(cfg) && m <= n
    decreases n - m
  {
    if m == n then 0 else AdmittedIn(cfg, ops, key, m, n - 1) + if AdmittedAt(cfg, ops, key, n - 1) then 1 else 0
  }

  lemma AdmittedOneMore(cfg: Config, ops: seq<Op>, key: Key, n: nat)
    requires ValidConfig(cfg) && n < |ops|
    ensures Admitted(cfg, ops[..n + 1], key)
         == Admitted(cfg, ops[..n], key) + if AdmittedAt(cfg, ops, key, n) then 1 else 0
  {
    assert ops[..n + 1] == ops[..n] + [ops[n]];
    AdmittedSnoc(cfg, ops[..n], ops[n], key);
    BucketIsSolo(cfg, ops, key, n);
  }

  lemma {:induction false} AdmittedIsCount(cfg: Config, ops: seq<Op>, key: Key, m: nat, n: nat)
    requires ValidConfig(cfg) && m <= n <= |ops|
    ensures Admitted(cfg, ops[..n], key) == Admitted(cfg, ops[..m], key) + AdmittedIn(cfg, ops, key, m, n)
    decreases n
  {
    if m < n {
      AdmittedIsCount(cfg, ops, key, m, n - 1);
      AdmittedOneMore(cfg, ops, key, n - 1);
    }
  }

  lemma {:induction false} AdmittedInParts(cfg: Config, ops: seq<Op>, key: Key, m: nat, k: nat, n: nat)
    requires ValidConfig(cfg) && m <= k <= n
    ensures AdmittedIn(cfg, ops, key, m, n) == AdmittedIn(cfg, ops, key, m, k) + AdmittedIn(cfg, ops, key, k, n)
    decreases n
  {
    if k < n { AdmittedInParts(cfg, ops, key, m, k, n - 1); }
  }

  /** The key's bucket, if there is one, is settled when operation n starts. */
  lemma SettledBefore(cfg: Config, ops: seq<Op>, key: Key, n: nat)
    requires ValidConfig(cfg) && Clocked(ops) && n < |ops|
    ensures var b := BucketAt(cfg, ops, key, n);
            b.Some? ==> n > 0 && Settled(cfg, b.value, End(ops[n - 1])) && Settled(cfg, b.value, Begin(ops[n]))
    ensures Begin(ops[n]) <= End(ops[n])
  {
    assert forall i | 0 <= i < n :: ops[..n][i] == ops[i];
    RunSettles(cfg, ops[..n], key);
    BucketIsSolo(cfg, ops, key, n);
  }

  // ---------- Refusals ----------

  /** A call that is let through stamps the bucket with its own reading or leaves the stamp; one that is refused found
      no refill period over and changes nothing. */
  lemma CallStamps(cfg: Config, b: Option<Bucket>, t1: int, t2: int)
    requires ValidConfig(cfg) && t1 <= t2 && (b.Some? ==> Settled(cfg, b.value, t1))
    ensures var (b', ok) := CallStep(cfg, b, t1, t2);
            && (ok ==> b'.lastSeen == Some(t2) || (b.Some? && b'.lastSeen == b.value.lastSeen))
            && (!ok ==> b.Some? && b' == b.value && t1 - b.value.lastSeen.value < cfg.refillPer)
  {
    CallSettles(cfg, b, t1, t2);
    if b.Some? {
      var elapsed := Since(b.value.lastSeen, t1);
      DivNonNegative(elapsed, cfg.refillPer);
      if cfg.refillPer <= elapsed { DivAtLeast(1, elapsed, cfg.refillPer); }
    }
  }

  /** The stamp of a stored bucket is no later than the second reading of some call that was let through. */
  lemma {:induction false} StampedByAdmission(cfg: Config, ops: seq<Op>, key: Key, n: nat) returns (i: nat)
    requires ValidConfig(cfg) && Clocked(ops) && n <= |ops| && BucketAt(cfg, ops, key, n).Some?
    ensures i < n && AdmittedAt(cfg, ops, key, i)
    ensures var seen := BucketAt(cfg, ops, key, n).value.lastSeen; seen.Some? && seen.value <= ops[i].t2
    decreases n
  {
    var b, op := BucketAt(cfg, ops, key, n - 1), ops[n - 1];
    SettledBefore(cfg, ops, key, n - 1);
    if IsCall(ops, key, n - 1) { CallStamps(cfg, b, op.t1, op.t2); }
    if b.Some? { i := StampedByAdmission(cfg, ops, key, n - 1); }
    if AdmittedAt(cfg, ops, key, n - 1) { i := n - 1; }
  }

  /** A refused call comes less than one refill period after a call of the key that was let through: whoever waits that
      long is never refused, however often it was refused before. */
  lemma RefusedSoonAfterAdmission(cfg: Config, ops: seq<Op>, key: Key, n: nat) returns (i: nat)
    requires ValidConfig(cfg) && Clocked(ops) && RefusedAt(cfg, ops, key, n)
    ensures i < n && AdmittedAt(cfg, ops, key, i) && ops[n].t1 - ops[i].t2 < cfg.refillPer
  {
    SettledBefore(cfg, ops, key, n);
    CallStamps(cfg, BucketAt(cfg, ops, key, n), ops[n].t1, ops[n].t2);
    i := StampedByAdmission(cfg, ops, key, n);
  }

  // ---------- Spaced calls ----------

  /** xs lists calls of the key, from operation n on, each at least one refill period after the one before. */
  ghost predicate Spaced(cfg: Config, ops: seq<Op>, key: Key, n: nat, xs: seq<nat>) {
    && (forall k | 0 <= k < |xs| :: n <= xs[k] && IsCall(ops, key, xs[k]))
    && (forall k | 0 < k < |xs| :: xs[k - 1] < xs[k] && ops[xs[k]].t1 - ops[xs[k - 1]].t2 >= cfg.refillPer)
  }

  lemma CountedBetween(cfg: Config, ops: seq<Op>, key: Key, m: nat, j: nat, n: nat)
    requires ValidConfig(cfg) && m <= j < n && AdmittedAt(cfg, ops, key, j)
    ensures AdmittedIn(cfg, ops, key, m, n) >= 1
  {
    AdmittedInParts(cfg, ops, key, m, j + 1, n);
  }

  /** Of two calls a refill period apart the later one is let through, or one between them is. */
  lemma AdmissionBetween(cfg: Config, ops: seq<Op>, key: Key, i: nat, x: nat) returns (j: nat)
    requires ValidConfig(cfg) && Clocked(ops) && IsCall(ops, key, x) && i < x
    requires ops[x].t1 - End(ops[i]) >= cfg.refillPer
    ensures i < j <= x && AdmittedAt(cfg, ops, key, j)
  {
    j := x;
    if RefusedAt(cfg, ops, key, x) {
      j := RefusedSoonAfterAdmission(cfg, ops, key, x);
      if j <= i { ClockOrders(ops, j, i); }
    }
  }

  lemma ClockOrders(ops: seq<Op>, i: nat, j: nat)
    requires Clocked(ops) && i <= j < |ops|
    ensures End(ops[i]) <= End(ops[j])
  {}

  /** The first call of the key, or one before it, is let through. */
  lemma AdmissionBefore(cfg: Config, ops: seq<Op>, key: Key, x: nat) returns (j: nat)
    requires ValidConfig(cfg) && Clocked(ops) && IsCall(ops, key, x)
    ensures j <= x && AdmittedAt(cfg, ops, key, j)
  {
    j := x;
    if RefusedAt(cfg, ops, key, x) { j := RefusedSoonAfterAdmission(cfg, ops, key, x); }
  }

  lemma FirstSpaced(cfg: Config, ops: seq<Op>, key: Key, x: nat)
    requires ValidConfig(cfg) && Clocked(ops) && IsCall(ops, key, x)
    ensures AdmittedIn(cfg, ops, key, 0, x + 1) >= 1
  {
    var j := AdmissionBefore(cfg, ops, key, x);
    CountedBetween(cfg, ops, key, 0, j, x + 1);
  }

  lemma NextSpaced(cfg: Config, ops: seq<Op>, key: Key, n: nat, i: nat, x: nat)
    requires ValidConfig(cfg) && Clocked(ops) && IsCall(ops, key, x) && n <= i < x
    requires ops[x].t1 - End(ops[i]) >= cfg.refillPer
    ensures AdmittedIn(cfg, ops, key, n, x + 1) >= AdmittedIn(cfg, ops, key, n, i + 1) + 1
  {
    var j := AdmissionBetween(cfg, ops, key, i, x);
    CountedBetween(cfg, ops, key, i + 1, j, x + 1);
    AdmittedInParts(cfg, ops, key, n, i + 1, x + 1);
  }

  lemma {:induction false} SpacedUpTo(cfg: Config, ops: seq<Op>, key: Key, n: nat, xs: seq<nat>, k: nat)
    requires ValidConfig(cfg) && Clocked(ops) && Spaced(cfg, ops, key, n, xs) && k < |xs|
    ensures AdmittedIn(cfg, ops, key, n, xs[k] + 1) >= k + if n == 0 then 1 else 0
  {
    if k == 0 {
      if n == 0 { FirstSpaced(cfg, ops, key, xs[0]); }
    } else {
      SpacedUpTo(cfg, ops, key, n, xs, k - 1);
      NextSpaced(cfg, ops, key, n, xs[k - 1], xs[k]);
    }
  }

  /** The rate a client gets in any case: if a window holds calls that are a refill period apart, whatever else was
      called, it admits one request for each of them but the first, and from the beginning one for each. */
  lemma SpacedCallsAdmitted(cfg: Config, ops: seq<Op>, key: Key, n: nat, xs: seq<nat>)
    requires ValidConfig(cfg) && Clocked(ops) && Spaced(cfg, ops, key, n, xs) && n <= |ops|
    ensures Admitted(cfg, ops, key) - Admitted(cfg, ops[..n], key) >= |xs| - if n == 0 then 0 else 1
  {
    assert ops[..|ops|] == ops;
    AdmittedIsCount(cfg, ops, key, n, |ops|);
    if xs != [] {
      SpacedUpTo(cfg, ops, key, n, xs, |xs| - 1);
      AdmittedInParts(cfg, ops, key, n, xs[|xs| - 1] + 1, |ops|);
    }
  }

  // ---------- Bursts ----------

  /** Before its call at m the key was never called, or not for q whole refill periods, as time.Since measures them. */
  ghost predicate Rested(cfg: Config, ops: seq<Op>, key: Key, n: nat, m: nat, q: nat) {
    && n <= m && IsCall(ops, key, m) && q <= cfg.capacity
    && (forall i | n <= i < m :: !IsCall(ops, key, i))
    && (n == 0 || q * cfg.refillPer <= Min(MAX_DURATION, Begin(ops[m]) - End(ops[n - 1])))
  }

  /** While no call of the key is made, its bucket stays as it was or is evicted. */
  lemma {:induction false} QuietBucket(cfg: Config, ops: seq<Op>, key: Key, n: nat, m: nat)
    requires ValidConfig(cfg) && n <= m <= |ops| && forall i | n <= i < m :: !IsCall(ops, key, i)
    ensures var b := BucketAt(cfg, ops, key, m); b.None? || b == BucketAt(cfg, ops, key, n)
    decreases m
  {
    if n < m {
      QuietBucket(cfg, ops, key, n, m - 1);
      assert !IsCall(ops, key, m - 1);
    }
  }

  /** The tokens of a bucket; a bucket that is not there is as good as a full one. */
  ghost function Tokens(cfg: Config, b: Option<Bucket>): int {
    if b.None? then cfg.capacity else b.value.tokens
  }

  lemma RestedCall(cfg: Config, b: Option<Bucket>, t1: int, t2: int, q: nat)
    requires ValidConfig(cfg) && t1 <= t2 && q <= cfg.capacity
    requires b.Some? ==> Settled(cfg, b.value, t1) && q * cfg.refillPer <= Since(b.value.lastSeen, t1)
    ensures var (b', ok) := CallStep(cfg, b, t1, t2); b'.tokens + (if ok then 1 else 0) >= q
  {
    CallSettles(cfg, b, t1, t2);
    if b.Some? { DivAtLeast(q, Since(b.value.lastSeen, t1), cfg.refillPer); }
  }

  lemma OpKeepsBurst(cfg: Config, b: Option<Bucket>, op: Op, key: Key, q: nat, admitted: int)
    requires ValidConfig(cfg) && Begin(op) <= End(op) && q <= cfg.capacity && admitted >= 0
    requires b.Some? ==> Settled(cfg, b.value, Begin(op))
    requires Tokens(cfg, b) + admitted >= q
    ensures Tokens(cfg, SoloStep(cfg, b, op, key)) + admitted + AdmittedBy(cfg, b, op, key) >= q
  {
    if op.Call? && op.key == key {
      CallSettles(cfg, b, op.t1, op.t2);
      if b.Some? { DivNonNegative(Since(b.value.lastSeen, op.t1), cfg.refillPer); }
    }
  }

  lemma RestedBefore(cfg: Config, ops: seq<Op>, key: Key, n: nat, m: nat, q: nat)
    requires ValidConfig(cfg) && Clocked(ops) && Rested(cfg, ops, key, n, m, q)
    ensures var b := BucketAt(cfg, ops, key, m);
            b.Some? ==> Settled(cfg, b.value, ops[m].t1) && q * cfg.refillPer <= Since(b.value.lastSeen, ops[m].t1)
  {
    QuietBucket(cfg, ops, key, n, m);
    SettledAt(cfg, ops, key, n, m);
    SettledBefore(cfg, ops, key, m);
  }

  lemma BurstStarts(cfg: Config, ops: seq<Op>, key: Key, n: nat, m: nat, q: nat)
    requires ValidConfig(cfg) && Clocked(ops) && Rested(cfg, ops, key, n, m, q)
    ensures BurstLeft(cfg, ops, key, m, m + 1, q)
  {
    RestedBefore(cfg, ops, key, n, m, q);
    RestedCall(cfg, BucketAt(cfg, ops, key, m), ops[m].t1, ops[m].t2, q);
  }

  /** From the call at m on: the tokens left and what was admitted since make up the q tokens earned. */
  ghost predicate BurstLeft(cfg: Config, ops: seq<Op>, key: Key, m: nat, j: nat, q: nat)
    requires ValidConfig(cfg) && m <= j <= |ops|
  {
    Tokens(cfg, BucketAt(cfg, ops, key, j)) + AdmittedIn(cfg, ops, key, m, j) >= q
  }

  lemma BurstOneMore(cfg: Config, ops: seq<Op>, key: Key, m: nat, j: nat, q: nat)
    requires ValidConfig(cfg) && Clocked(ops) && m <= j < |ops| && q <= cfg.capacity
    requires BurstLeft(cfg, ops, key, m, j, q)
    ensures BurstLeft(cfg, ops, key, m, j + 1, q)
  {
    SettledBefore(cfg, ops, key, j);
    OpKeepsBurst(cfg, BucketAt(cfg, ops, key, j), ops[j], key, q, AdmittedIn(cfg, ops, key, m, j));
  }

  lemma {:induction false} BurstStays(cfg: Config, ops: seq<Op>, key: Key, m: nat, j: nat, q: nat)
    requires ValidConfig(cfg) && Clocked(ops) && m < j <= |ops| && q <= cfg.capacity
    requires BurstLeft(cfg, ops, key, m, m + 1, q)
    ensures BurstLeft(cfg, ops, key, m, j, q)
    decreases j
  {
    if m + 1 < j {
      BurstStays(cfg, ops, key, m, j - 1, q);
      BurstOneMore(cfg, ops, key, m, j - 1, q);
    }
  }

  lemma SettledAt(cfg: Config, ops: seq<Op>, key: Key, n: nat, m: nat)
    requires ValidConfig(cfg) && Clocked(ops) && n <= m < |ops|
    ensures var b := BucketAt(cfg, ops, key, n); b.Some? ==> n > 0 && Settled(cfg, b.value, End(ops[n - 1]))
  {
    SettledBefore(cfg, ops, key, n);
  }

  /** What resting earns: a key not called for q refill periods, or never called before, has at least q of its next
      calls admitted before one is refused, up to the capacity. */
  lemma RestEarnsBurst(cfg: Config, ops: seq<Op>, key: Key, n: nat, m: nat, j: nat, q: nat)
    requires ValidConfig(cfg) && Clocked(ops) && Rested(cfg, ops, key, n, m, q) && m <= j
    requires RefusedAt(cfg, ops, key, j)
    ensures Admitted(cfg, ops[..j], key) - Admitted(cfg, ops[..m], key) >= q
  {
    SettledBefore(cfg, ops, key, j);
    CallStamps(cfg, BucketAt(cfg, ops, key, j), ops[j].t1, ops[j].t2);
    BurstStarts(cfg, ops, key, n, m, q);
    BurstStays(cfg, ops, key, m, j + 1, q);
    AdmittedIsCount(cfg, ops, key, m, j);
  }
}
