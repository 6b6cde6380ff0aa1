/**
 * The limiter as the object the code declares: 64 shards, chosen by the low bits of a hash of the
 * key. Every method is proved to do to the union of the shards what `Limiter` does to one table.
 */
module LimiterShards {
  import opened Bits
  import opened Bytes
  import opened TokenBucket
  import opened Limiter

  const SHARD_COUNT := 64
  const SHARD_MASK := SHARD_COUNT - 1

  /** The part of a table that falls on the first `n` shards. */
  function Part(t: Table, hash: Text -> nat, n: nat): Table { map k | k in t && hash(k) % SHARD_COUNT < n :: t[k] }

  function OneShard(t: Table, hash: Text -> nat, i: nat): Table { map k | k in t && hash(k) % SHARD_COUNT == i :: t[k] }

  /** The shard index the code computes lies in the array and is the remainder by 64. */
  lemma MaskIsShard(h: nat)
    ensures And(h, SHARD_MASK) == h % SHARD_COUNT && h % SHARD_COUNT == h % 64
  {
    assert Pow2(6) == 2 * Pow2(5) == 4 * Pow2(4) == 8 * Pow2(3) == 16 * Pow2(2) == 64;
    MaskIsMod(h, 6);
  }

  /** Cutting a table into shards loses no bucket and counts none twice. */
  lemma PartGrows(t: Table, hash: Text -> nat, i: nat)
    ensures |Part(t, hash, i + 1)| == |Part(t, hash, i)| + |OneShard(t, hash, i)|
  {
    var a, b, c := Part(t, hash, i), OneShard(t, hash, i), Part(t, hash, i + 1);
    assert c.Keys == a.Keys + b.Keys && a.Keys !! b.Keys;
    assert |c.Keys| == |a.Keys| + |b.Keys|;
    assert |a| == |a.Keys| && |b| == |b.Keys| && |c| == |c.Keys|;
  }

  lemma PartEnds(t: Table, hash: Text -> nat)
    ensures Part(t, hash, 0) == map[] && Part(t, hash, SHARD_COUNT) == t
  {
  }

  class TokenLimiter {
    const hash: Text -> nat
    const shards: array<Table>
    ghost var Contents: Table

    ghost predicate Valid()
      reads this, shards
    {
      && shards.Length == SHARD_COUNT
      && forall i :: 0 <= i < SHARD_COUNT ==> shards[i] == OneShard(Contents, hash, i)
    }

    constructor (hash: Text -> nat)
      ensures Valid() && fresh(shards) && Contents == map[] && this.hash == hash
    {
      this.hash := hash;
      shards := new Table[SHARD_COUNT](_ => map[]);
      Contents := map[];
    }

    method ShardFor(key: Text) returns (i: nat)
      requires Valid()
      ensures i < SHARD_COUNT && i == hash(key) % SHARD_COUNT
    {
      MaskIsShard(hash(key));
      i := And(hash(key), SHARD_MASK);
    }

    method Allow(key: Text, rate: real, burst: int, now: real) returns (ok: bool)
      requires Valid()
      modifies this, shards
      ensures Valid()
      ensures (Contents, ok) == AllowIn(old(Contents), key, rate, burst, now)
    {
      hide Reconfigured, Refilled;
      if rate <= 0.0 {
        return true;
      }
      var capacity := burst as real;
      if capacity <= 0.0 {
        capacity := rate;
      }
      var i := ShardFor(key);
      var s := shards[i];
      var b;
      if key in s {
        b := s[key];
      } else {
        b := Bucket(capacity, capacity, rate, now, now);
      }
      b, ok := Spend(b, rate, capacity, now);
      shards[i] := s[key := b];
      Contents := Contents[key := b];
      forall j | 0 <= j < SHARD_COUNT
        ensures shards[j] == OneShard(Contents, hash, j)
      {
        assert j != i ==> OneShard(Contents, hash, j) == OneShard(old(Contents), hash, j);
      }
    }

    /** The arithmetic of one call, field by field. */
    static method Spend(found: Bucket, rate: real, capacity: real, now: real) returns (b: Bucket, ok: bool)
      ensures (b, ok) == Decide(Some(found), rate, capacity, now)
    {
      b := found;
      if b.rate != rate || b.burst != capacity {
        if capacity < b.tokens {
          b := b.(tokens := capacity);
        }
        b := b.(rate := rate, burst := capacity);
      }
      var elapsed := now - b.lastFill;
      if elapsed > 0.0 {
        b := b.(tokens := b.tokens + Earned(elapsed, b.rate));
        if b.tokens > b.burst {
          b := b.(tokens := b.burst);
        }
        b := b.(lastFill := now);
      }
      b := b.(lastUsed := now);
      if b.tokens < 1.0 {
        return b, false;
      }
      return b.(tokens := b.tokens - 1.0), true;
    }

    method Sweep(now: real)
      requires Valid()
      modifies this, shards
      ensures Valid()
      ensures Contents == SweepIn(old(Contents), now)
    {
      var cutoff := now - IDLE_TTL;
      ghost var was := Contents;
      for i := 0 to SHARD_COUNT
        invariant Contents == was
        invariant forall j :: 0 <= j < i ==> shards[j] == SweepIn(OneShard(was, hash, j), now)
        invariant forall j :: i <= j < SHARD_COUNT ==> shards[j] == OneShard(was, hash, j)
      {
        SweepShard(i, cutoff);
      }
      Contents := SweepIn(was, now);
      forall j | 0 <= j < SHARD_COUNT
        ensures shards[j] == OneShard(Contents, hash, j)
      {
        assert SweepIn(OneShard(was, hash, j), now) == OneShard(SweepIn(was, now), hash, j);
      }
    }

    method SweepShard(i: nat, cutoff: real)
      requires i < shards.Length
      modifies shards
      ensures shards[i] == SweepIn(old(shards[i]), cutoff + IDLE_TTL)
      ensures forall j :: 0 <= j < shards.Length && j != i ==> shards[j] == old(shards[j])
    {
      var s := shards[i];
      var keys := s.Keys;
      while keys != {}
        invariant keys <= s.Keys
        invariant shards[i] == map k | k in s && (k in keys || !(s[k].lastUsed < cutoff)) :: s[k]
        invariant forall j :: 0 <= j < shards.Length && j != i ==> shards[j] == old(shards[j])
      {
        var key :| key in keys;
        keys := keys - {key};
        if s[key].lastUsed < cutoff {
          shards[i] := shards[i] - {key};
        }
      }
    }

    method Len() returns (total: nat)
      requires Valid()
      ensures total == |Contents|
    {
      hide Part, OneShard;
      total := 0;
      PartEnds(Contents, hash);
      for i := 0 to SHARD_COUNT
        invariant total == |Part(Contents, hash, i)|
      {
        PartGrows(Contents, hash, i);
        total := total + |shards[i]|;
      }
    }

    /** The used part of the burst, between 0 and 1; nothing for a key without a bucket. */
    method Utilization(key: Text) returns (used: Option<real>)
      requires Valid()
      ensures used.Some? <==> key in Contents && Contents[key].burst > 0.0
      ensures used.Some? ==> 0.0 <= used.value <= 1.0
      ensures used.Some? && 0.0 <= Contents[key].tokens <= Contents[key].burst ==>
                Contents[key].burst - used.value * Contents[key].burst == Contents[key].tokens
    {
      var i := ShardFor(key);
      var s := shards[i];
      if key !in s || s[key].burst <= 0.0 {
        return None;
      }
      var b := s[key];
      var u := (b.burst - b.tokens) / b.burst;
      if 0.0 <= b.tokens <= b.burst {
        Fraction(b.burst - b.tokens, b.burst);
      }
      if u < 0.0 {
        u := 0.0;
      }
      if u > 1.0 {
        u := 1.0;
      }
      return Some(u);
    }
  }

  lemma Fraction(x: real, y: real)
    requires 0.0 <= x <= y && 0.0 < y
    ensures 0.0 <= x / y <= 1.0 && (x / y) * y == x
  {
  }
}
