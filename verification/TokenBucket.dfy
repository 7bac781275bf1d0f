/** The rate limiter as the object the middleware keeps: a map from keys to buckets that are updated in place. */
module TokenBuckets {
  import opened Domain
  import opened RateLimitModel

  class BucketCell {
    var tokens: int
    var lastSeen: Option<int>

    constructor (tokens: int)
      ensures this.tokens == tokens && lastSeen == None
    {
      this.tokens, lastSeen := tokens, None;
    }

    function Value(): Bucket
      reads this
    {
      Bucket(tokens, lastSeen)
    }
  }

  /** `now` is `before` without its stale buckets, except that those in `todo` have not been looked at. */
  ghost predicate SweptButFor(before: map<Key, Bucket>, now: map<Key, Bucket>, todo: set<Key>, op: Op) {
    && op.Sweep? && todo <= now.Keys <= before.Keys
    && (forall k <- now :: now[k] == before[k])
    && (forall k <- before :: k in now <==> k in todo || !Stale(before[k], Reading(op, k)))
  }

  lemma SweptOneMore(before: map<Key, Bucket>, now: map<Key, Bucket>, todo: set<Key>, op: Op, k: Key)
    requires SweptButFor(before, now, todo, op) && k in todo
    ensures SweptButFor(before, if Stale(now[k], Reading(op, k)) then now - {k} else now, todo - {k}, op)
    ensures |todo - {k}| < |todo|
  {}

  lemma AllSwept(cfg: Config, before: map<Key, Bucket>, now: map<Key, Bucket>, op: Op)
    requires ValidConfig(cfg) && SweptButFor(before, now, {}, op)
    ensures now == Next(cfg, before, op)
  {}

  class TokenBucket {
    const cfg: Config
    var buckets: map<Key, BucketCell>
    /** The buckets as values, kept in step with the cells. */
    ghost var view: map<Key, Bucket>

    ghost predicate Valid()
      reads this, buckets.Values
    {
      && ValidConfig(cfg)
      && view.Keys == buckets.Keys
      && (forall k <- buckets :: view[k] == buckets[k].Value())
      && (forall j, k | j in buckets && k in buckets && j != k :: buckets[j] != buckets[k])
    }

    constructor (capacity: int, refillPer: int)
      requires ValidConfig(Config(capacity, refillPer))
      ensures Valid() && view == map[] && cfg == Config(capacity, refillPer)
    {
      cfg, buckets, view := Config(capacity, refillPer), map[], map[];
    }

    /** Finds the key's bucket, or makes a full one. */
    method Find(key: Key) returns (b: BucketCell)
      requires Valid()
      modifies this
      ensures Valid() && key in buckets && buckets[key] == b
      ensures key in old(buckets) ==> buckets == old(buckets) && view == old(view)
      ensures key !in old(buckets) ==> fresh(b) && buckets == old(buckets)[key := b]
                                       && view == old(view)[key := Bucket(cfg.capacity, None)]
    {
      if key in buckets {
        b := buckets[key];
      } else {
        b := new BucketCell(cfg.capacity);
        buckets := buckets[key := b];
        view := view[key := b.Value()];
      }
    }

    method Allow(key: Key, t1: int, t2: int) returns (ok: bool)
      requires Valid()
      modifies this, buckets.Values
      ensures Valid() && fresh(buckets.Values - old(buckets.Values))
      ensures view == Next(cfg, old(view), Call(key, t1, t2))
      ensures ok == CallStep(cfg, Lookup(old(view), key), t1, t2).1
    {
      var b := Find(key);
      ok := SpendFrom(key, b, t1, t2);
    }

    method SpendFrom(key: Key, b: BucketCell, t1: int, t2: int) returns (ok: bool)
      requires Valid() && key in buckets && buckets[key] == b
      modifies this`view, b
      ensures Valid() && view == old(view)[key := CallStep(cfg, Some(old(view)[key]), t1, t2).0]
      ensures ok == CallStep(cfg, Some(old(view)[key]), t1, t2).1
    {
      assert forall k <- buckets | k != key :: buckets[k] != b;
      ok := Spend(cfg, b, t1, t2);
      view := view[key := b.Value()];
    }

    /** Refills one bucket and takes a token if there is one. */
    static method Spend(cfg: Config, b: BucketCell, t1: int, t2: int) returns (ok: bool)
      requires ValidConfig(cfg)
      modifies b
      ensures (b.Value(), ok) == CallStep(cfg, Some(old(b.Value())), t1, t2)
    {
      var refilled := Truncated(Since(b.lastSeen, t1), cfg.refillPer);
      if refilled > 0 {
        b.tokens := Min(cfg.capacity, b.tokens + refilled);
        b.lastSeen := Some(t2);
      }
      if b.tokens <= 0 {
        return false;
      }
      b.tokens := b.tokens - 1;
      if b.lastSeen.None? {
        b.lastSeen := Some(t2);
      }
      return true;
    }

    /** One tick of the cleanup goroutine; the keys are visited in any order and deleted as they are met. The clock is
        read for each key: t1 is where it starts and `at` what it shows for the keys of the map. */
    method SweepTick(t1: int, t2: int, at: map<Key, int>)
      requires Valid()
      modifies this
      ensures Valid() && view == Next(cfg, old(view), Sweep(t1, t2, at))
    {
      var todo := buckets.Keys;
      ghost var op := Sweep(t1, t2, at);
      while todo != {}
        invariant Valid() && SweptButFor(old(view), view, todo, op)
        decreases |todo|
      {
        var k :| k in todo;
        SweptOneMore(old(view), view, todo, op, k);
        DeleteIfStale(k, if k in at then at[k] else t1);
        todo := todo - {k};
      }
      AllSwept(cfg, old(view), view, op);
    }

    method DeleteIfStale(k: Key, t: int)
      requires Valid() && k in buckets
      modifies this
      ensures Valid() && view == if Stale(old(view)[k], t) then old(view) - {k} else old(view)
      ensures buckets == if Stale(old(view)[k], t) then old(buckets) - {k} else old(buckets)
    {
      if Since(buckets[k].lastSeen, t) > TEN_MINUTES {
        buckets := buckets - {k};
        view := view - {k};
      }
    }
  }
}
