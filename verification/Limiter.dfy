/**
 * The limiter over many keys: a table of buckets, the sweep that forgets idle ones, and the
 * 64 shards the code spreads the table over.
 */
module Limiter {
  import opened Bytes
  import opened TokenBucket

  type Table = map<Text, Bucket>

  function Lookup(t: Table, key: Text): Option<Bucket> { if key in t then Some(t[key]) else None }

  /** Allow on one flat table. A rate that is not positive means no limit. */
  function AllowIn(t: Table, key: Text, rate: real, burst: int, now: real): (Table, bool) {
    if rate <= 0.0 then (t, true)
    else
      var (b, yes) := Decide(Lookup(t, key), rate, Capacity(rate, burst), now);
      (t[key := b], yes)
  }

  /** The sweep drops every bucket not used for the last ten minutes. */
  function SweepIn(t: Table, now: real): Table { map k | k in t && !(t[k].lastUsed < now - IDLE_TTL) :: t[k] }

  // ---------------------------------------------------------------- runs with and without sweeping

  datatype Op = Call(key: Text, rate: real, burst: int, now: real) | SweepAt(now: real)

  function StepTable(t: Table, op: Op, sweeping: bool): Table {
    match op
    case Call(key, rate, burst, now) => AllowIn(t, key, rate, burst, now).0
    case SweepAt(now) => if sweeping then SweepIn(t, now) else t
  }

  function Answer(t: Table, op: Op): seq<bool> {
    match op
    case Call(key, rate, burst, now) => [AllowIn(t, key, rate, burst, now).1]
    case SweepAt(_) => []
  }

  /** The decisions of a run, one per call. */
  function Answers(t: Table, ops: seq<Op>, sweeping: bool): seq<bool>
    decreases |ops|
  {
    if ops == [] then [] else Answer(t, ops[0]) + Answers(StepTable(t, ops[0], sweeping), ops[1..], sweeping)
  }

  predicate InOrder(ops: seq<Op>, from: real) {
    ops == [] || (from <= ops[0].now && InOrder(ops[1..], ops[0].now))
  }

  /** Ten idle minutes are enough to refill a bucket under this rule. */
  predicate RefillsInTime(rate: real, burst: int) { Capacity(rate, burst) <= rate * IDLE_TTL }

  predicate AllRefillInTime(ops: seq<Op>) {
    forall i :: 0 <= i < |ops| && ops[i].Call? && ops[i].rate > 0.0 ==> RefillsInTime(ops[i].rate, ops[i].burst)
  }

  predicate Sound(b: Bucket, now: real) { 0.0 <= b.tokens && b.lastFill == b.lastUsed <= now }

  /** The swept table is the full one without some buckets that have been idle long enough. */
  ghost predicate Simulates(swept: Table, full: Table, now: real) {
    && (forall k :: k in full ==> Sound(full[k], now))
    && (forall k :: k in swept ==> k in full && swept[k] == full[k])
    && (forall k :: k in full && k !in swept ==> full[k].lastFill < now - IDLE_TTL)
  }

  lemma Covers(idle: real, rate: real, capacity: real)
    requires idle > IDLE_TTL && rate > 0.0 && capacity <= rate * IDLE_TTL
    ensures capacity <= Earned(idle, rate)
  {
    Spread(rate, 0.0, IDLE_TTL, idle);
    Grows(rate, idle - IDLE_TTL);
    assert Earned(IDLE_TTL, rate) == rate * IDLE_TTL;
    hide Earned;
  }

  /** A bucket idle for long enough is as good as a new one under a rule that refills in time. */
  lemma IdleIsFresh(b: Bucket, rate: real, burst: int, now: real)
    requires 0.0 < rate && RefillsInTime(rate, burst) && 0.0 <= b.tokens && b.lastFill < now - IDLE_TTL
    ensures Decide(Some(b), rate, Capacity(rate, burst), now) == Decide(None, rate, Capacity(rate, burst), now)
  {
    hide Earned;
    var c := Capacity(rate, burst);
    Covers(now - b.lastFill, rate, c);
    var r := Reconfigured(b, rate, c);
    assert r.rate == rate && r.burst == c && 0.0 <= r.tokens && r.lastFill == b.lastFill;
    assert Refilled(r, now) == Fresh(rate, c, now);
  }

  lemma DecideSound(b: Option<Bucket>, rate: real, burst: int, now: real)
    requires 0.0 < rate && (b.Some? ==> Sound(b.value, now))
    ensures Sound(Decide(b, rate, Capacity(rate, burst), now).0, now)
  {
    var c := Capacity(rate, burst);
    var found := if b.Some? then b.value else Fresh(rate, c, now);
    var r := Reconfigured(found, rate, c);
    assert 0.0 < c && r.rate == rate && r.burst == c && 0.0 <= r.tokens;
    Grows(rate, now - r.lastFill);
    hide Earned, Reconfigured;
  }

  lemma CallSimulates(swept: Table, full: Table, key: Text, rate: real, burst: int, now: real)
    requires Simulates(swept, full, now) && (rate > 0.0 ==> RefillsInTime(rate, burst))
    ensures Simulates(AllowIn(swept, key, rate, burst, now).0, AllowIn(full, key, rate, burst, now).0, now)
    ensures AllowIn(swept, key, rate, burst, now).1 == AllowIn(full, key, rate, burst, now).1
  {
    hide Decide, RefillsInTime;
    if rate > 0.0 {
      DecideSound(Lookup(full, key), rate, burst, now);
      if key in full && key !in swept {
        IdleIsFresh(full[key], rate, burst, now);
      }
    }
  }

  lemma {:induction false} SweepRunSimulates(swept: Table, full: Table, ops: seq<Op>, from: real)
    requires Simulates(swept, full, from) && InOrder(ops, from) && AllRefillInTime(ops)
    ensures Answers(swept, ops, true) == Answers(full, ops, false)
    decreases |ops|
  {
    hide RefillsInTime, AllowIn;
    if ops != [] {
      var now := ops[0].now;
      assert Simulates(swept, full, now);
      if ops[0].Call? {
        CallSimulates(swept, full, ops[0].key, ops[0].rate, ops[0].burst, now);
      }
      SweepRunSimulates(StepTable(swept, ops[0], true), StepTable(full, ops[0], false), ops[1..], now);
    }
  }

  /**
   * Sweeping is invisible: on a clock that does not go back, and rules that refill in ten minutes,
   * interleaved sweeps change no decision, for any number of keys and changing rules.
   */
  lemma SweepingIsInvisible(ops: seq<Op>, from: real)
    requires InOrder(ops, from) && AllRefillInTime(ops)
    ensures Answers(map[], ops, true) == Answers(map[], ops, false)
  {
    SweepRunSimulates(map[], map[], ops, from);
  }

  // ---------------------------------------------------------------- exactly which rules

  predicate OneRule(ops: seq<Op>, rate: real, burst: int) {
    forall i :: 0 <= i < |ops| && ops[i].Call? ==> ops[i].rate == rate && ops[i].burst == burst
  }

  /** A bucket that holds less than one token never admits anything, swept or not. */
  lemma {:induction false} TinyNeverAdmits(t: Table, ops: seq<Op>, rate: real, burst: int, sweeping: bool)
    requires 0.0 < rate && Capacity(rate, burst) < 1.0 && OneRule(ops, rate, burst)
    requires forall k :: k in t ==> t[k].burst == Capacity(rate, burst) && t[k].tokens <= t[k].burst
    ensures Answers(t, ops, sweeping) == seq(Calls(ops), _ => false)
    decreases |ops|
  {
    hide Earned;
    if ops != [] {
      TinyNeverAdmits(StepTable(t, ops[0], sweeping), ops[1..], rate, burst, sweeping);
    }
  }

  function Calls(ops: seq<Op>): nat {
    if ops == [] then 0 else (if ops[0].Call? then 1 else 0) + Calls(ops[1..])
  }

  function TableAfter(t: Table, ops: seq<Op>, sweeping: bool): Table
    decreases |ops|
  {
    if ops == [] then t else TableAfter(StepTable(t, ops[0], sweeping), ops[1..], sweeping)
  }

  lemma {:induction false} AnswersSplit(t: Table, xs: seq<Op>, ys: seq<Op>, sweeping: bool)
    ensures Answers(t, xs + ys, sweeping) == Answers(t, xs, sweeping)
            + Answers(TableAfter(t, xs, sweeping), ys, sweeping)
    ensures TableAfter(t, xs + ys, sweeping) == TableAfter(TableAfter(t, xs, sweeping), ys, sweeping)
    decreases |xs|
  {
    hide Answer, StepTable;
    if xs == [] {
      assert xs + ys == ys;
    } else {
      AnswersSplit(StepTable(t, xs[0], sweeping), xs[1..], ys, sweeping);
      assert (xs + ys)[1..] == xs[1..] + ys;
    }
  }

  lemma {:induction false} InOrderSplit(xs: seq<Op>, ys: seq<Op>, from: real, mid: real)
    requires InOrder(xs, from) && from <= mid && (forall i :: 0 <= i < |xs| ==> xs[i].now <= mid) && InOrder(ys, mid)
    ensures InOrder(xs + ys, from)
    decreases |xs|
  {
    if xs == [] {
      assert xs + ys == ys;
    } else {
      InOrderSplit(xs[1..], ys, xs[0].now, mid);
      assert (xs + ys)[1..] == xs[1..] + ys;
    }
  }

  function Repeat(key: Text, rate: real, burst: int, now: real, m: nat): (ops: seq<Op>)
    ensures |ops| == m && forall i :: 0 <= i < m ==> ops[i] == Call(key, rate, burst, now)
  {
    seq(m, _ => Call(key, rate, burst, now))
  }

  lemma {:induction false} RepeatInOrder(key: Text, rate: real, burst: int, now: real, m: nat)
    ensures InOrder(Repeat(key, rate, burst, now, m), now)
  {
    if m > 0 {
      RepeatInOrder(key, rate, burst, now, m - 1);
      assert Repeat(key, rate, burst, now, m)[1..] == Repeat(key, rate, burst, now, m - 1);
    }
  }

  /** Calls at one instant take one token each, as long as there are tokens. */
  lemma {:induction false} DrainAt(t: Table, key: Text, b: Bucket, rate: real, burst: int, now: real, m: nat,
                                   sweeping: bool)
    requires key in t && t[key] == b && 0.0 < rate && b.rate == rate && b.burst == Capacity(rate, burst)
    requires b.lastFill == b.lastUsed == now && m as real <= b.tokens
    ensures TableAfter(t, Repeat(key, rate, burst, now, m), sweeping) == t[key := b.(tokens := b.tokens - m as real)]
    decreases m
  {
    if m > 0 {
      var ops := Repeat(key, rate, burst, now, m);
      assert ops[1..] == Repeat(key, rate, burst, now, m - 1);
      var b' := b.(tokens := b.tokens - 1.0);
      assert StepTable(t, ops[0], sweeping) == t[key := b'];
      DrainAt(t[key := b'], key, b', rate, burst, now, m - 1, sweeping);
    }
  }

  /** The same from any bucket that, brought up to date, has the tokens. */
  lemma DrainFrom(t: Table, key: Text, rate: real, burst: int, now: real, m: nat, sweeping: bool)
    requires 0.0 < rate && 0 < m
    requires var r := Ready(Lookup(t, key), rate, Capacity(rate, burst), now);
             r.rate == rate && r.burst == Capacity(rate, burst) && r.lastFill == r.lastUsed == now
               && m as real <= r.tokens
    ensures TableAfter(t, Repeat(key, rate, burst, now, m), sweeping) ==
            var r := Ready(Lookup(t, key), rate, Capacity(rate, burst), now);
              t[key := r.(tokens := r.tokens - m as real)]
  {
    hide Ready;
    var r := Ready(Lookup(t, key), rate, Capacity(rate, burst), now);
    var ops := Repeat(key, rate, burst, now, m);
    assert ops[1..] == Repeat(key, rate, burst, now, m - 1);
    var b := r.(tokens := r.tokens - 1.0);
    assert StepTable(t, ops[0], sweeping) == t[key := b];
    DrainAt(t[key := b], key, b, rate, burst, now, m - 1, sweeping);
    assert t[key := b][key := b.(tokens := b.tokens - (m - 1) as real)] == t[key := r.(tokens := r.tokens - m as real)];
  }

  lemma LastAnswer(pre: seq<Op>, key: Text, rate: real, burst: int, now: real)
    requires AllowIn(TableAfter(map[], pre, true), key, rate, burst, now).1
          != AllowIn(TableAfter(map[], pre, false), key, rate, burst, now).1
    ensures Answers(map[], pre + [Call(key, rate, burst, now)], true)
         != Answers(map[], pre + [Call(key, rate, burst, now)], false)
  {
    hide AllowIn;
    var last := [Call(key, rate, burst, now)];
    AnswersSplit(map[], pre, last, true);
    AnswersSplit(map[], pre, last, false);
    var x, y := Answers(map[], pre, true), Answers(map[], pre, false);
    var ax := AllowIn(TableAfter(map[], pre, true), key, rate, burst, now).1;
    var ay := AllowIn(TableAfter(map[], pre, false), key, rate, burst, now).1;
    LastOf(TableAfter(map[], pre, true), last, true);
    LastOf(TableAfter(map[], pre, false), last, false);
    assert (x + [ax])[|x|] == ax && (y + [ay])[|y|] == ay;
  }

  lemma LastOf(t: Table, last: seq<Op>, sweeping: bool)
    requires |last| == 1
    ensures Answers(t, last, sweeping) == Answer(t, last[0])
  {
    assert Answers(StepTable(t, last[0], sweeping), last[1..], sweeping) == [];
  }

  lemma RealDiv(x: real, rate: real)
    requires 0.0 < rate
    ensures Earned(x / rate, rate) == x
    ensures 0.0 <= x ==> 0.0 <= x / rate
    ensures x > IDLE_TTL * rate ==> x / rate > IDLE_TTL
  {
    var q := x / rate;
    assert q * rate == x;
    if x > IDLE_TTL * rate && q <= IDLE_TTL {
      Grows(rate, IDLE_TTL - q);
    }
  }

  /** After draining a bucket at time zero, a call that finds exactly one token leaves none. */
  lemma Emptied(key: Text, rate: real, burst: int) returns (ops: seq<Op>, t1: real)
    requires 0.0 < rate && 1.0 <= Capacity(rate, burst)
    ensures 0.0 <= t1 && InOrder(ops, 0.0) && OneRule(ops, rate, burst) && forall i :: 0 <= i < |ops| ==>
              ops[i].now <= t1
    ensures forall sweeping ::
              TableAfter(map[], ops, sweeping) == map[key := Bucket(0.0, Capacity(rate, burst), rate, t1, t1)]
  {
    var c := Capacity(rate, burst);
    var n0 := c.Floor;
    var f := c - n0 as real;
    t1 := (1.0 - f) / rate;
    RealDiv(1.0 - f, rate);
    var first := Repeat(key, rate, burst, 0.0, n0);
    ops := first + [Call(key, rate, burst, t1)];
    RepeatInOrder(key, rate, burst, 0.0, n0);
    assert InOrder([Call(key, rate, burst, t1)], t1);
    InOrderSplit(first, [Call(key, rate, burst, t1)], 0.0, t1);
    forall sweeping
      ensures TableAfter(map[], ops, sweeping) == map[key := Bucket(0.0, c, rate, t1, t1)]
    {
      hide Earned;
      EarnedNothing(rate);
      DrainFrom(map[], key, rate, burst, 0.0, n0, sweeping);
      var mid := map[key := Bucket(f, c, rate, 0.0, 0.0)];
      AnswersSplit(map[], first, [Call(key, rate, burst, t1)], sweeping);
      assert TableAfter(map[], first, sweeping) == mid;
      OneCall(mid, key, rate, burst, t1, sweeping);
    }
  }

  lemma OneCall(t: Table, key: Text, rate: real, burst: int, now: real, sweeping: bool)
    ensures TableAfter(t, [Call(key, rate, burst, now)], sweeping) == AllowIn(t, key, rate, burst, now).0
  {
    var op := Call(key, rate, burst, now);
    assert TableAfter(StepTable(t, op, sweeping), [op][1..], sweeping) == AllowIn(t, key, rate, burst, now).0;
  }

  /** What a call finds in a bucket last filled at `b.lastFill` under the same rule. */
  lemma ReadyAt(b: Bucket, rate: real, capacity: real, now: real)
    requires b.rate == rate && b.burst == capacity && b.lastFill <= now && b.tokens <= capacity
    ensures var t := b.tokens + Earned(now - b.lastFill, rate);
            Ready(Some(b), rate, capacity, now)
              == Bucket(if t > capacity then capacity else t, capacity, rate, now, now)
  {
    EarnedNothing(rate);
    hide Earned;
    assert Reconfigured(b, rate, capacity) == b;
  }

  lemma ReadyFresh(rate: real, capacity: real, now: real)
    ensures Ready(None, rate, capacity, now) == Bucket(capacity, capacity, rate, now, now)
  {
    hide Earned;
  }

  lemma SweptAway(key: Text, b: Bucket, now: real)
    requires b.lastUsed < now - IDLE_TTL
    ensures TableAfter(map[key := b], [SweepAt(now)], true) == map[]
    ensures TableAfter(map[key := b], [SweepAt(now)], false) == map[key := b]
  {
    var op := SweepAt(now);
    assert SweepIn(map[key := b], now) == map[];
    assert TableAfter(StepTable(map[key := b], op, true), [op][1..], true) == map[];
    assert TableAfter(StepTable(map[key := b], op, false), [op][1..], false) == map[key := b];
  }

  /** A level between what ten minutes deliver and the capacity, and the idle time that earns it. */
  lemma Between(rate: real, capacity: real) returns (u: real, w: real)
    requires 0.0 < rate && rate * IDLE_TTL < capacity
    ensures 0.0 < u < capacity && IDLE_TTL < w && Earned(w, rate) == u
  {
    u := (capacity + rate * IDLE_TTL) / 2.0;
    w := u / rate;
    RealDiv(u, rate);
  }

  /** The tokens a call would find. */
  function Level(t: Table, key: Text, rate: real, burst: int, now: real): real {
    Ready(Lookup(t, key), rate, Capacity(rate, burst), now).tokens
  }

  function Capped(x: real, capacity: real): real { if x > capacity then capacity else x }

  /** A table whose bucket for `key` was last full to `level` at time `at`, or absent and so full. */
  ghost predicate Stands(t: Table, key: Text, rate: real, burst: int, at: real, level: real) {
    var c := Capacity(rate, burst);
    if t == map[] then level == c
    else exists b ::
      && t == map[key := b] && b.rate == rate && b.burst == c && b.tokens <= c && b.lastFill <= at
      && level == Capped(b.tokens + Earned(at - b.lastFill, rate), c)
  }

  lemma StandsOf(key: Text, b: Bucket, rate: real, burst: int, at: real)
    requires b.rate == rate && b.burst == Capacity(rate, burst) && b.tokens <= b.burst && b.lastFill <= at
    ensures Stands(map[key := b], key, rate, burst, at,
                   Capped(b.tokens + Earned(at - b.lastFill, rate), Capacity(rate, burst)))
  {
    hide Earned;
    assert key in map[key := b];
  }

  lemma EmptyStands(key: Text, rate: real, burst: int, at: real)
    ensures Stands(map[], key, rate, burst, at, Capacity(rate, burst))
  {
  }

  lemma LevelOf(t: Table, key: Text, rate: real, burst: int, at: real, level: real, now: real)
    requires 0.0 < rate && Stands(t, key, rate, burst, at, level) && at <= now
    ensures Level(t, key, rate, burst, now) == Capped(level + Earned(now - at, rate), Capacity(rate, burst))
  {
    var c := Capacity(rate, burst);
    Grows(rate, now - at);
    if t == map[] {
      ReadyFresh(rate, c, now);
    } else {
      var b :| && t == map[key := b] && b.rate == rate && b.burst == c && b.tokens <= c && b.lastFill <= at
               && level == Capped(b.tokens + Earned(at - b.lastFill, rate), c);
      assert Lookup(t, key) == Some(b);
      ReadyAt(b, rate, c, now);
      Spread(rate, b.lastFill, at, now);
      hide Earned;
    }
  }

  /** Taking `m` tokens at one instant lowers the level by `m`. */
  /** What a call finds in a table that stands at a level. */
  lemma ReadyStands(t: Table, key: Text, rate: real, burst: int, at: real, level: real)
    requires 0.0 < rate && Stands(t, key, rate, burst, at, level)
    ensures Ready(Lookup(t, key), rate, Capacity(rate, burst), at)
            == Bucket(level, Capacity(rate, burst), rate, at, at)
    ensures forall b :: t[key := b] == map[key := b]
    ensures level <= Capacity(rate, burst)
  {
    var c := Capacity(rate, burst);
    if t == map[] {
      ReadyFresh(rate, c, at);
    } else {
      var b :| && t == map[key := b] && b.rate == rate && b.burst == c && b.tokens <= c && b.lastFill <= at
               && level == Capped(b.tokens + Earned(at - b.lastFill, rate), c);
      assert Lookup(t, key) == Some(b);
      ReadyAt(b, rate, c, at);
    }
    hide Earned, Ready;
  }

  lemma FullStands(key: Text, rate: real, burst: int, at: real, level: real)
    requires level <= Capacity(rate, burst)
    ensures Stands(map[key := Bucket(level, Capacity(rate, burst), rate, at, at)], key, rate, burst, at, level)
  {
    EarnedNothing(rate);
    StandsOf(key, Bucket(level, Capacity(rate, burst), rate, at, at), rate, burst, at);
    hide Earned, Stands;
  }

  lemma Take(t: Table, key: Text, rate: real, burst: int, at: real, level: real, m: nat, sweeping: bool)
    requires 0.0 < rate && Stands(t, key, rate, burst, at, level) && m as real <= level
    ensures Stands(TableAfter(t, Repeat(key, rate, burst, at, m), sweeping), key, rate, burst, at, level - m as real)
  {
    if m > 0 {
      ReadyStands(t, key, rate, burst, at, level);
      FullStands(key, rate, burst, at, level - m as real);
      hide Ready, Stands, Capacity, Lookup, TableAfter;
      DrainFrom(t, key, rate, burst, at, m, sweeping);
    } else {
      assert Repeat(key, rate, burst, at, m) == [];
    }
  }

  /**
   * Empty a bucket and stay idle long enough to be swept but not to refill: the swept table is full,
   * the other is not.
   */
  lemma Idle(key: Text, rate: real, burst: int) returns (ops: seq<Op>, now: real, u: real)
    requires 0.0 < rate && 1.0 <= Capacity(rate, burst) && !RefillsInTime(rate, burst)
    ensures OneRule(ops, rate, burst) && InOrder(ops, 0.0) && 0.0 <= now && forall i :: 0 <= i < |ops| ==>
              ops[i].now <= now
    ensures 0.0 < u < Capacity(rate, burst)
    ensures Stands(TableAfter(map[], ops, true), key, rate, burst, now, Capacity(rate, burst))
    ensures Stands(TableAfter(map[], ops, false), key, rate, burst, now, u)
  {
    var c := Capacity(rate, burst);
    var w;
    u, w := Between(rate, c);
    var empty, t1 := Emptied(key, rate, burst);
    now := t1 + w;
    hide Earned, RefillsInTime, Stands;
    var b := Bucket(0.0, c, rate, t1, t1);
    ops := empty + [SweepAt(now)];
    assert InOrder([SweepAt(now)], t1);
    InOrderSplit(empty, [SweepAt(now)], 0.0, t1);
    SweptAway(key, b, now);
    EmptyStands(key, rate, burst, now);
    AnswersSplit(map[], empty, [SweepAt(now)], true);
    AnswersSplit(map[], empty, [SweepAt(now)], false);
    assert now - b.lastFill == w;
    StandsOf(key, b, rate, burst, now);
  }

  /** The whole run up to the call that tells: take all the kept bucket can give. */
  lemma Diverge(key: Text, rate: real, burst: int) returns (ops: seq<Op>, now: real, low: real, high: real)
    requires 0.0 < rate && 1.0 <= Capacity(rate, burst) && !RefillsInTime(rate, burst)
    ensures OneRule(ops, rate, burst) && InOrder(ops, 0.0) && 0.0 <= now && forall i :: 0 <= i < |ops| ==>
              ops[i].now <= now
    ensures 0.0 <= low < 1.0 && low < high <= Capacity(rate, burst)
    ensures Stands(TableAfter(map[], ops, true), key, rate, burst, now, high)
    ensures Stands(TableAfter(map[], ops, false), key, rate, burst, now, low)
  {
    hide Earned, RefillsInTime, Stands, Answers;
    var idle, u;
    idle, now, u := Idle(key, rate, burst);
    var n: nat := u.Floor;
    low, high := u - n as real, Capacity(rate, burst) - n as real;
    var drain := Repeat(key, rate, burst, now, n);
    ops := idle + drain;
    RepeatInOrder(key, rate, burst, now, n);
    InOrderSplit(idle, drain, 0.0, now);
    AnswersSplit(map[], idle, drain, true);
    AnswersSplit(map[], idle, drain, false);
    Take(TableAfter(map[], idle, true), key, rate, burst, now, Capacity(rate, burst), n, true);
    Take(TableAfter(map[], idle, false), key, rate, burst, now, u, n, false);
  }

  lemma AnswerIsLevel(t: Table, key: Text, rate: real, burst: int, now: real)
    requires 0.0 < rate
    ensures AllowIn(t, key, rate, burst, now).1 <==> Level(t, key, rate, burst, now) >= 1.0
  {
    hide Ready;
  }

  /** How long the swept bucket still needs for a call it admits, and what the kept one then has. */
  lemma Tells(rate: real, capacity: real, low: real, high: real) returns (d: real)
    requires 0.0 < rate && 1.0 <= capacity && 0.0 <= low < 1.0 && low < high <= capacity
    ensures 0.0 <= d
    ensures Capped(high + Earned(d, rate), capacity) >= 1.0 > Capped(low + Earned(d, rate), capacity)
  {
    EarnedNothing(rate);
    d := 0.0;
    if high < 1.0 {
      RealDiv(1.0 - high, rate);
      d := (1.0 - high) / rate;
    }
    hide Earned;
  }

  /** A rule that admits calls but does not refill in ten minutes: some run shows the sweep. */
  lemma SweepCanShow(key: Text, rate: real, burst: int) returns (ops: seq<Op>)
    requires 0.0 < rate && 1.0 <= Capacity(rate, burst) && !RefillsInTime(rate, burst)
    ensures OneRule(ops, rate, burst) && InOrder(ops, 0.0)
    ensures Answers(map[], ops, true) != Answers(map[], ops, false)
  {
    hide Earned, Stands, Answers, AllowIn, Level, RefillsInTime, Capped, TableAfter;
    var pre, now, low, high := Diverge(key, rate, burst);
    var d := Tells(rate, Capacity(rate, burst), low, high);
    var t := now + d;
    ops := pre + [Call(key, rate, burst, t)];
    assert InOrder([Call(key, rate, burst, t)], t);
    InOrderSplit(pre, [Call(key, rate, burst, t)], 0.0, t);
    LevelOf(TableAfter(map[], pre, true), key, rate, burst, now, high, t);
    LevelOf(TableAfter(map[], pre, false), key, rate, burst, now, low, t);
    AnswerIsLevel(TableAfter(map[], pre, true), key, rate, burst, t);
    AnswerIsLevel(TableAfter(map[], pre, false), key, rate, burst, t);
    assert t - now == d;
    LastAnswer(pre, key, rate, burst, t);
  }

  /** Exactly the rules under which no run on a clock that does not go back can show the sweep. */
  lemma SweepInvisibleExactly(rate: real, burst: int)
    requires 0.0 < rate
    ensures (forall ops, from :: OneRule(ops, rate, burst) && InOrder(ops, from) ==>
               Answers(map[], ops, true) == Answers(map[], ops, false))
        <==> (if burst > 0 then burst as real <= 600.0 * rate || burst as real < 1.0 else true)
  {
    assert RefillsInTime(rate, burst) <==> (burst > 0 ==> burst as real <= 600.0 * rate);
    hide RefillsInTime, Answers, OneRule, InOrder;
    if RefillsInTime(rate, burst) || Capacity(rate, burst) < 1.0 {
      forall ops, from | OneRule(ops, rate, burst) && InOrder(ops, from)
        ensures Answers(map[], ops, true) == Answers(map[], ops, false)
      {
        InvisibleWhen(ops, from, rate, burst);
      }
    } else {
      var ops := SweepCanShow([], rate, burst);
    }
  }

  lemma InvisibleWhen(ops: seq<Op>, from: real, rate: real, burst: int)
    requires 0.0 < rate && OneRule(ops, rate, burst) && InOrder(ops, from)
    requires RefillsInTime(rate, burst) || Capacity(rate, burst) < 1.0
    ensures Answers(map[], ops, true) == Answers(map[], ops, false)
  {
    hide RefillsInTime, Answers, InOrder;
    if RefillsInTime(rate, burst) {
      SweepingIsInvisible(ops, from);
    } else {
      TinyNeverAdmits(map[], ops, rate, burst, true);
      TinyNeverAdmits(map[], ops, rate, burst, false);
    }
  }

  // ---------------------------------------------------------------- each key by itself

  /** The times of the calls on one key, and the decisions on them among those of a run. */
  function CallsOn(ops: seq<Op>, key: Text): seq<real> {
    if ops == [] then []
    else (if ops[0].Call? && ops[0].key == key then [ops[0].now] else []) + CallsOn(ops[1..], key)
  }

  function On(ops: seq<Op>, answers: seq<bool>, key: Text): seq<bool> {
    if ops == [] then []
    else if !ops[0].Call? then On(ops[1..], answers, key)
    else if answers == [] then []
    else (if ops[0].key == key then [answers[0]] else []) + On(ops[1..], answers[1..], key)
  }

  /** Every call on the key comes with this rule. */
  predicate RuleOn(ops: seq<Op>, key: Text, rate: real, burst: int) {
    forall i :: 0 <= i < |ops| && ops[i].Call? && ops[i].key == key ==> ops[i].rate == rate && ops[i].burst == burst
  }

  function Yes(answers: seq<bool>): nat {
    if answers == [] then 0 else Yes(answers[..|answers| - 1]) + if answers[|answers| - 1] then 1 else 0
  }

  /** What a bucket does depends on the calls before alone. */
  lemma {:induction false} AfterPrefix(ts: seq<real>, us: seq<real>, rate: real, capacity: real, k: nat)
    requires k <= |ts| && k <= |us| && ts[..k] == us[..k]
    ensures After(ts, rate, capacity, k) == After(us, rate, capacity, k)
  {
    hide Decide;
    if k > 0 {
      assert ts[..k - 1] == ts[..k][..k - 1] && us[..k - 1] == us[..k][..k - 1];
      assert ts[k - 1] == ts[..k][k - 1] && us[k - 1] == us[..k][k - 1];
      AfterPrefix(ts, us, rate, capacity, k - 1);
    }
  }

  lemma NextCall(past: seq<real>, rate: real, capacity: real, now: real)
    ensures After(past + [now], rate, capacity, |past| + 1)
            == Some(Decide(After(past, rate, capacity, |past|), rate, capacity, now).0)
    ensures Admitted(past + [now], rate, capacity, |past|)
            == Decide(After(past, rate, capacity, |past|), rate, capacity, now).1
  {
    hide Decide;
    assert (past + [now])[..|past|] == past[..|past|];
    AfterPrefix(past + [now], past, rate, capacity, |past|);
  }

  lemma OnNext(t: Table, ops: seq<Op>, sweeping: bool, key: Text)
    requires ops != []
    ensures On(ops, Answers(t, ops, sweeping), key)
            == var later := On(ops[1..], Answers(StepTable(t, ops[0], sweeping), ops[1..], sweeping), key);
               if ops[0].Call? && ops[0].key == key
               then [AllowIn(t, key, ops[0].rate, ops[0].burst, ops[0].now).1] + later else later
    ensures CallsOn(ops, key) == if ops[0].Call? && ops[0].key == key then [ops[0].now] + CallsOn(ops[1..], key)
            else CallsOn(ops[1..], key)
  {
    hide AllowIn, StepTable;
    var rest := Answers(StepTable(t, ops[0], sweeping), ops[1..], sweeping);
    assert (Answer(t, ops[0]) + rest)[|Answer(t, ops[0])|..] == rest;
    assert [] + rest == rest;
  }

  /** A call on a key is decided by its bucket alone and changes no other. */
  lemma KeyKept(t: Table, op: Op, key: Text)
    ensures var next := StepTable(t, op, false);
      if op.Call? && op.key == key && op.rate > 0.0 then
        var d := Decide(Lookup(t, key), op.rate, Capacity(op.rate, op.burst), op.now);
        Lookup(next, key) == Some(d.0) && AllowIn(t, key, op.rate, op.burst, op.now).1 == d.1
      else Lookup(next, key) == Lookup(t, key)
  {
    hide Decide;
  }

  /** The decisions on a key are those of its own bucket, whatever happens to other keys. */
  lemma {:induction false} KeyByItself(t: Table, past: seq<real>, ops: seq<Op>, key: Text, rate: real, burst: int)
    requires 0.0 < rate && RuleOn(ops, key, rate, burst)
    requires Lookup(t, key) == After(past, rate, Capacity(rate, burst), |past|)
    ensures var (ts, yes) := (past + CallsOn(ops, key), On(ops, Answers(t, ops, false), key));
      && |yes| == |CallsOn(ops, key)|
      && forall i :: 0 <= i < |yes| ==> yes[i] == Admitted(ts, rate, Capacity(rate, burst), |past| + i)
    decreases |ops|
  {
    hide Decide, Capacity, After, Admitted;
    if ops != [] {
      var (op, rest) := (ops[0], ops[1..]);
      var next := StepTable(t, op, false);
      OnNext(t, ops, false, key);
      KeyKept(t, op, key);
      hide On, Answers, CallsOn, StepTable, AllowIn;
      if op.Call? && op.key == key {
        NextCall(past, rate, Capacity(rate, burst), op.now);
        KeyByItself(next, past + [op.now], rest, key, rate, burst);
        OwnCall(past, op.now, CallsOn(rest, key), rate, Capacity(rate, burst));
        assert past + CallsOn(ops, key) == past + [op.now] + CallsOn(rest, key);
      } else {
        KeyByItself(next, past, rest, key, rate, burst);
      }
    }
  }

  lemma OwnCall(past: seq<real>, now: real, later: seq<real>, rate: real, capacity: real)
    ensures Admitted(past + [now] + later, rate, capacity, |past|) == Admitted(past + [now], rate, capacity, |past|)
  {
    var ts := past + [now] + later;
    assert ts[..|past|] == past == (past + [now])[..|past|];
    AfterPrefix(ts, past + [now], rate, capacity, |past|);
    hide Decide, After;
  }

  lemma {:induction false} CountIsYes(ts: seq<real>, rate: real, capacity: real, yes: seq<bool>, i: nat, k: nat)
    requires i <= k <= |ts| == |yes| && forall j :: 0 <= j < |ts| ==> yes[j] == Admitted(ts, rate, capacity, j)
    ensures Count(ts, rate, capacity, i, k) == Yes(yes[i..k])
    decreases k
  {
    hide Admitted;
    if i < k {
      CountIsYes(ts, rate, capacity, yes, i, k - 1);
      assert yes[i..k][..k - i - 1] == yes[i..k - 1];
    }
  }

  lemma {:induction false} CallsOnInOrder(ops: seq<Op>, from: real, key: Text)
    requires InOrder(ops, from)
    ensures Monotone(CallsOn(ops, key)) && forall i :: 0 <= i < |CallsOn(ops, key)| ==> from <= CallsOn(ops, key)[i]
  {
    if ops != [] {
      CallsOnInOrder(ops[1..], ops[0].now, key);
    }
  }

  lemma AllowanceIs(ts: seq<real>, rate: real, burst: int, i: nat, k: nat)
    requires i <= k < |ts|
    ensures Allowance(ts, rate, Capacity(rate, burst), i, k)
            == (if burst > 0 then burst as real else rate) + (ts[k] - ts[i]) * rate
  {
  }

  /** No window that ends with call `j` admits more than the burst `c` and what the rate delivers over it. */
  ghost predicate Conforms(ts: seq<real>, yes: seq<bool>, c: real, rate: real, j: nat)
    requires j < |ts| == |yes|
  {
    forall i :: 0 <= i <= j ==> 1.0 + Yes(yes[i..j]) as real <= c + (ts[j] - ts[i]) * rate
  }

  /** The closed form in terms of what a caller sees. */
  lemma SeenFromOutside(ts: seq<real>, yes: seq<bool>, rate: real, burst: int, j: nat)
    requires Monotone(ts) && 0.0 < rate && j < |ts| == |yes|
    requires forall i :: 0 <= i < |ts| ==> yes[i] == Admitted(ts, rate, Capacity(rate, burst), i)
    ensures yes[j] <==> Conforms(ts, yes, if burst > 0 then burst as real else rate, rate, j)
  {
    var c := Capacity(rate, burst);
    assert 0.0 < c;
    ClosedForm(ts, rate, c, j);
    hide Admitted, Count, Allowance, Yes, Capacity, Monotone;
    forall i | 0 <= i <= j
      ensures Count(ts, rate, c, i, j) == Yes(yes[i..j])
      ensures Allowance(ts, rate, c, i, j) == (if burst > 0 then burst as real else rate) + (ts[j] - ts[i]) * rate
    {
      CountIsYes(ts, rate, c, yes, i, j);
      AllowanceIs(ts, rate, burst, i, j);
    }
  }

  lemma KeyAlone(ops: seq<Op>, from: real, sweeping: bool, key: Text, rate: real, burst: int)
    requires InOrder(ops, from) && 0.0 < rate && RuleOn(ops, key, rate, burst)
    requires sweeping ==> AllRefillInTime(ops)
    ensures var (ts, yes) := (CallsOn(ops, key), On(ops, Answers(map[], ops, sweeping), key));
      |yes| == |ts| && forall i :: 0 <= i < |ts| ==> yes[i] == Admitted(ts, rate, Capacity(rate, burst), i)
  {
    assert Lookup(map[], key) == After([], rate, Capacity(rate, burst), 0);
    if sweeping {
      SweepingIsInvisible(ops, from);
    }
    hide *;
    KeyByItself(map[], [], ops, key, rate, burst);
    assert [] + CallsOn(ops, key) == CallsOn(ops, key);
  }

  /**
   * The limiter from outside: on a clock that does not go back, with any calls on other keys under any rules
   * in between, the j-th call on a key is admitted exactly when for every earlier call on it, and itself, the
   * calls admitted from there on and this one are no more than the burst, or the rate if none is set, plus the
   * rate times the time since. Interleaved sweeps make no difference if all rules refill in ten minutes.
   */
  lemma EachKeyExactly(ops: seq<Op>, from: real, sweeping: bool, key: Text, rate: real, burst: int, j: nat)
    requires InOrder(ops, from) && 0.0 < rate && RuleOn(ops, key, rate, burst) && j < |CallsOn(ops, key)|
    requires sweeping ==> AllRefillInTime(ops)
    ensures var (ts, yes) := (CallsOn(ops, key), On(ops, Answers(map[], ops, sweeping), key));
      |yes| == |ts| && (yes[j] <==> Conforms(ts, yes, if burst > 0 then burst as real else rate, rate, j))
  {
    KeyAlone(ops, from, sweeping, key, rate, burst);
    CallsOnInOrder(ops, from, key);
    hide *;
    SeenFromOutside(CallsOn(ops, key), On(ops, Answers(map[], ops, sweeping), key), rate, burst, j);
  }

  /** A rule without a positive rate admits everything, at any time and whatever is swept. */
  lemma {:induction false} NoRateNoLimit(t: Table, ops: seq<Op>, sweeping: bool, key: Text, rate: real, burst: int)
    requires rate <= 0.0 && RuleOn(ops, key, rate, burst)
    ensures forall b :: b in On(ops, Answers(t, ops, sweeping), key) ==> b
    decreases |ops|
  {
    hide Decide;
    if ops != [] {
      OnNext(t, ops, sweeping, key);
      hide On, Answers;
      NoRateNoLimit(StepTable(t, ops[0], sweeping), ops[1..], sweeping, key, rate, burst);
    }
  }
}
