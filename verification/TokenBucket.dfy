/**
 * The token bucket of the rate limiter, over the reals: tokens, rates and times in seconds.
 * A bucket decides calls one by one; the theorems say what that means for whole call sequences.
 */
module TokenBucket {
  import opened Bytes

  const IDLE_TTL: real := 600.0

  datatype Bucket = Bucket(tokens: real, burst: real, rate: real, lastFill: real, lastUsed: real)

  /** The bucket size of a rule: the burst, or the rate when no burst is set. */
  function Capacity(rate: real, burst: int): real { if burst > 0 then burst as real else rate }

  function Fresh(rate: real, capacity: real, now: real): Bucket { Bucket(capacity, capacity, rate, now, now) }

  function Reconfigured(b: Bucket, rate: real, capacity: real): Bucket {
    if b.rate != rate || b.burst != capacity then
      b.(tokens := if capacity < b.tokens then capacity else b.tokens, rate := rate, burst := capacity)
    else b
  }

  /** The tokens a rate delivers over a stretch of time. */
  function Earned(elapsed: real, rate: real): real { elapsed * rate }

  function Refilled(b: Bucket, now: real): Bucket {
    var f :=
      if now > b.lastFill then
        var t := b.tokens + Earned(now - b.lastFill, b.rate);
        b.(tokens := if t > b.burst then b.burst else t, lastFill := now)
      else b;
    f.(lastUsed := now)
  }

  /** The bucket a call finds, brought up to date. */
  function Ready(b: Option<Bucket>, rate: real, capacity: real, now: real): Bucket {
    var found := if b.Some? then b.value else Fresh(rate, capacity, now);
    Refilled(Reconfigured(found, rate, capacity), now)
  }

  /** One call: the bucket afterwards and the decision. */
  function Decide(b: Option<Bucket>, rate: real, capacity: real, now: real): (Bucket, bool) {
    var r := Ready(b, rate, capacity, now);
    if r.tokens < 1.0 then (r, false) else (r.(tokens := r.tokens - 1.0), true)
  }

  // ---------------------------------------------------------------- one key under one rule

  /** The bucket after the first `k` calls at times `ts`. */
  function After(ts: seq<real>, rate: real, capacity: real, k: nat): Option<Bucket>
    requires k <= |ts|
  {
    if k == 0 then None else Some(Decide(After(ts, rate, capacity, k - 1), rate, capacity, ts[k - 1]).0)
  }

  function Available(ts: seq<real>, rate: real, capacity: real, k: nat): real
    requires k < |ts|
  {
    Ready(After(ts, rate, capacity, k), rate, capacity, ts[k]).tokens
  }

  predicate Admitted(ts: seq<real>, rate: real, capacity: real, k: nat)
    requires k < |ts|
  {
    Decide(After(ts, rate, capacity, k), rate, capacity, ts[k]).1
  }

  /** How many of the calls `i..k` were admitted. */
  function Count(ts: seq<real>, rate: real, capacity: real, i: nat, k: nat): (n: nat)
    requires i <= k <= |ts|
    ensures n <= k - i
    decreases k
  {
    if i == k then 0
    else Count(ts, rate, capacity, i, k - 1) + if Admitted(ts, rate, capacity, k - 1) then 1 else 0
  }

  predicate Monotone(ts: seq<real>) { forall i, j :: 0 <= i <= j < |ts| ==> ts[i] <= ts[j] }

  /** What a rule lets through between two calls: the capacity plus what the rate delivers. */
  function Allowance(ts: seq<real>, rate: real, capacity: real, i: nat, k: nat): real
    requires i <= k < |ts|
  {
    capacity + Earned(ts[k] - ts[i], rate)
  }

  /** What the window from call `i` to call `k` still has room for. */
  function Room(ts: seq<real>, rate: real, capacity: real, i: nat, k: nat): real
    requires i <= k < |ts|
  {
    Allowance(ts, rate, capacity, i, k) - Count(ts, rate, capacity, i, k) as real
  }

  /** Under one rule the bucket always carries that rule and its last fill is the last call. */
  lemma {:induction false} AfterShape(ts: seq<real>, rate: real, capacity: real, k: nat)
    requires Monotone(ts) && 0 < k <= |ts|
    ensures After(ts, rate, capacity, k).Some?
    ensures var b := After(ts, rate, capacity, k).value;
            && b.rate == rate && b.burst == capacity && b.lastFill == ts[k - 1] == b.lastUsed
            && b.tokens
               == Available(ts, rate, capacity, k - 1) - (if Admitted(ts, rate, capacity, k - 1) then 1.0 else 0.0)
  {
    hide Earned;
    if k > 1 {
      AfterShape(ts, rate, capacity, k - 1);
    }
  }

  lemma EarnedNothing(rate: real)
    ensures Earned(0.0, rate) == 0.0
  {
  }

  lemma RefillFormula(b: Bucket, rate: real, capacity: real, now: real)
    requires b.rate == rate && b.burst == capacity && b.lastFill <= now && b.tokens <= capacity
    ensures var t := b.tokens + Earned(now - b.lastFill, rate);
            Ready(Some(b), rate, capacity, now).tokens == if t > capacity then capacity else t
  {
    EarnedNothing(rate);
    hide Earned;
    assert Reconfigured(b, rate, capacity) == b;
  }

  lemma AvailableStep(ts: seq<real>, rate: real, capacity: real, k: nat)
    requires Monotone(ts) && 0 < k < |ts| && 0.0 < rate && Available(ts, rate, capacity, k - 1) <= capacity
    ensures var t := Available(ts, rate, capacity, k - 1) - (if Admitted(ts, rate, capacity, k - 1) then 1.0 else 0.0)
                     + Earned(ts[k] - ts[k - 1], rate);
            Available(ts, rate, capacity, k) == if t > capacity then capacity else t
  {
    hide After, Admitted, Available, Ready, Earned;
    AfterShape(ts, rate, capacity, k);
    AvailableIs(ts, rate, capacity, k);
    RefillFormula(After(ts, rate, capacity, k).value, rate, capacity, ts[k]);
  }

  lemma AvailableIs(ts: seq<real>, rate: real, capacity: real, k: nat)
    requires k < |ts|
    ensures Available(ts, rate, capacity, k) == Ready(After(ts, rate, capacity, k), rate, capacity, ts[k]).tokens
  {
    hide After, Ready;
  }

  lemma Grows(rate: real, x: real)
    requires 0.0 <= rate && 0.0 <= x
    ensures 0.0 <= Earned(x, rate)
  {
  }

  lemma Spread(rate: real, a: real, b: real, c: real)
    ensures Earned(c - a, rate) == Earned(b - a, rate) + Earned(c - b, rate)
  {
  }

  lemma RoomStep(ts: seq<real>, rate: real, capacity: real, i: nat, k: nat)
    requires i < k < |ts|
    ensures Room(ts, rate, capacity, i, k) == Room(ts, rate, capacity, i, k - 1)
              - (if Admitted(ts, rate, capacity, k - 1) then 1.0 else 0.0) + Earned(ts[k] - ts[k - 1], rate)
  {
    hide Admitted, Earned;
    Spread(rate, ts[i], ts[k - 1], ts[k]);
  }

  /** The tokens a call finds are the least room over all windows that end with it. */
  lemma {:induction false} AvailableIsLeastRoom(ts: seq<real>, rate: real, capacity: real, k: nat) returns (tight: nat)
    requires Monotone(ts) && k < |ts| && 0.0 < rate && 0.0 < capacity
    ensures Available(ts, rate, capacity, k) <= capacity
    ensures forall i :: 0 <= i <= k ==> Available(ts, rate, capacity, k) <= Room(ts, rate, capacity, i, k)
    ensures tight <= k && Available(ts, rate, capacity, k) == Room(ts, rate, capacity, tight, k)
  {
    hide Admitted, Available, Earned;
    EarnedNothing(rate);
    assert Room(ts, rate, capacity, k, k) == capacity;
    if k == 0 {
      FirstIsFull(ts, rate, capacity);
      tight := 0;
    } else {
      tight := AvailableIsLeastRoom(ts, rate, capacity, k - 1);
      AvailableStep(ts, rate, capacity, k);
      forall i | 0 <= i < k
        ensures Available(ts, rate, capacity, k) <= Room(ts, rate, capacity, i, k)
      {
        RoomStep(ts, rate, capacity, i, k);
      }
      RoomStep(ts, rate, capacity, tight, k);
      if Available(ts, rate, capacity, k) == capacity {
        tight := k;
      }
    }
  }

  lemma FirstIsFull(ts: seq<real>, rate: real, capacity: real)
    requires |ts| > 0
    ensures Available(ts, rate, capacity, 0) == capacity
  {
  }

  /**
   * Closed form: a call is admitted exactly when every window ending with it, the call itself
   * included, stays within the capacity plus what the rate delivers over the window.
   */
  lemma ClosedForm(ts: seq<real>, rate: real, capacity: real, k: nat)
    requires Monotone(ts) && k < |ts| && 0.0 < rate && 0.0 < capacity
    ensures Admitted(ts, rate, capacity, k) <==>
            forall i :: 0 <= i <= k ==>
              1.0 + Count(ts, rate, capacity, i, k) as real <= Allowance(ts, rate, capacity, i, k)
  {
    hide After, Count, Allowance;
    var tight := AvailableIsLeastRoom(ts, rate, capacity, k);
    if Admitted(ts, rate, capacity, k) {
      forall i | 0 <= i <= k
        ensures 1.0 + Count(ts, rate, capacity, i, k) as real <= Allowance(ts, rate, capacity, i, k)
      {
        assert Available(ts, rate, capacity, k) <= Room(ts, rate, capacity, i, k);
      }
    } else {
      assert Room(ts, rate, capacity, tight, k) < 1.0;
    }
  }

  /** Traffic that conforms in every window ending with a call is never rejected there. */
  lemma ConformingIsAdmitted(ts: seq<real>, rate: real, capacity: real, k: nat)
    requires Monotone(ts) && k < |ts| && 0.0 < rate && 0.0 < capacity
    requires forall i :: 0 <= i <= k ==> (k - i + 1) as real <= Allowance(ts, rate, capacity, i, k)
    ensures Admitted(ts, rate, capacity, k)
  {
    hide After, Admitted, Allowance;
    ClosedForm(ts, rate, capacity, k);
    forall i | 0 <= i <= k
      ensures 1.0 + Count(ts, rate, capacity, i, k) as real <= Allowance(ts, rate, capacity, i, k)
    {
      assert Count(ts, rate, capacity, i, k) <= k - i;
    }
  }

  /** No window admits more than the capacity plus what the rate delivers over it. */
  lemma {:induction false} WindowBound(ts: seq<real>, rate: real, capacity: real, i: nat, k: nat)
    requires Monotone(ts) && i <= k < |ts| && 0.0 < rate && 0.0 < capacity
    ensures Count(ts, rate, capacity, i, k + 1) as real <= Allowance(ts, rate, capacity, i, k)
    decreases k
  {
    hide After, Admitted, Earned;
    EarnedNothing(rate);
    if Admitted(ts, rate, capacity, k) {
      ClosedForm(ts, rate, capacity, k);
    } else if i < k {
      WindowBound(ts, rate, capacity, i, k - 1);
      Spread(rate, ts[i], ts[k - 1], ts[k]);
      Grows(rate, ts[k] - ts[k - 1]);
    }
  }

  // ---------------------------------------------------------------- a clock that may go back

  /** The latest time seen up to each call. */
  function Latest(ts: seq<real>): (ms: seq<real>)
    ensures |ms| == |ts|
  {
    if ts == [] then []
    else
      var ms := Latest(ts[..|ts| - 1]);
      var t := ts[|ts| - 1];
      ms + [if ms != [] && ms[|ms| - 1] > t then ms[|ms| - 1] else t]
  }

  lemma {:induction false} LatestMonotone(ts: seq<real>)
    ensures Monotone(Latest(ts)) && forall i :: 0 <= i < |ts| ==> ts[i] <= Latest(ts)[i]
  {
    if ts != [] {
      LatestMonotone(ts[..|ts| - 1]);
    }
  }

  lemma {:induction false} LatestPrefix(ts: seq<real>, k: nat)
    requires k <= |ts|
    ensures Latest(ts[..k]) == Latest(ts)[..k]
  {
    if k < |ts| {
      LatestPrefix(ts[..|ts| - 1], k);
      assert ts[..|ts| - 1][..k] == ts[..k];
    } else {
      assert ts[..k] == ts;
    }
  }

  lemma LatestNext(ts: seq<real>, k: nat)
    requires 0 < k < |ts|
    ensures Latest(ts)[k] == if Latest(ts)[k - 1] > ts[k] then Latest(ts)[k - 1] else ts[k]
  {
    LatestPrefix(ts, k + 1);
    LatestPrefix(ts, k);
    assert ts[..k + 1][..k] == ts[..k];
  }

  /** One call at time `t` on a bucket last filled at `last` is one call at the later of the two. */
  lemma LaterTimeCounts(b: Bucket, m: Bucket, rate: real, capacity: real, t: real)
    requires b == m.(lastUsed := b.lastUsed) && b.rate == rate && b.burst == capacity
    ensures var late := if b.lastFill > t then b.lastFill else t;
            var (b', yes), (m', yes') := Decide(Some(b), rate, capacity, t), Decide(Some(m), rate, capacity, late);
            && yes == yes' && b' == m'.(lastUsed := b'.lastUsed)
            && b'.rate == rate && b'.burst == capacity && b'.lastFill == late
  {
    hide Earned;
  }

  /** The bucket on the given clock is the bucket on the running maximum, but for its last use. */
  ghost predicate SameBut(ts: seq<real>, rate: real, capacity: real, k: nat)
    requires 0 < k <= |ts|
  {
    var (b, m) := (After(ts, rate, capacity, k).value, After(Latest(ts), rate, capacity, k).value);
    b == m.(lastUsed := b.lastUsed) && b.lastFill == Latest(ts)[k - 1] && b.rate == rate && b.burst == capacity
  }

  lemma FirstCall(ts: seq<real>, rate: real, capacity: real)
    requires 0 < |ts|
    ensures After(ts, rate, capacity, 1) == Some(Decide(None, rate, capacity, ts[0]).0)
    ensures Admitted(ts, rate, capacity, 0) == Decide(None, rate, capacity, ts[0]).1
  {
    hide Decide;
    assert After(ts, rate, capacity, 0) == None;
  }

  lemma FreshDecision(rate: real, capacity: real, now: real)
    ensures var b := Decide(None, rate, capacity, now).0; b.rate == rate && b.burst == capacity && b.lastFill == now
  {
    hide Earned;
  }

  lemma SameFirst(ts: seq<real>, rate: real, capacity: real)
    requires 0 < |ts|
    ensures SameBut(ts, rate, capacity, 1) && Admitted(ts, rate, capacity, 0) == Admitted(Latest(ts), rate, capacity, 0)
  {
    LatestPrefix(ts, 1);
    assert Latest(ts)[0] == ts[0];
    FirstCall(ts, rate, capacity);
    FirstCall(Latest(ts), rate, capacity);
    FreshDecision(rate, capacity, ts[0]);
    hide After, Decide, Latest, Admitted;
  }

  lemma SameNext(ts: seq<real>, rate: real, capacity: real, k: nat)
    requires 0 < k < |ts| && SameBut(ts, rate, capacity, k)
    ensures SameBut(ts, rate, capacity, k + 1)
            && Admitted(ts, rate, capacity, k) == Admitted(Latest(ts), rate, capacity, k)
  {
    LatestNext(ts, k);
    hide Latest, Decide;
    LaterTimeCounts(After(ts, rate, capacity, k).value, After(Latest(ts), rate, capacity, k).value,
                    rate, capacity, ts[k]);
  }

  /** Only the running maximum of the clock matters to the bucket. */
  lemma {:induction false} OnlyLatestMatters(ts: seq<real>, rate: real, capacity: real, k: nat)
    requires k <= |ts|
    ensures k > 0 ==> SameBut(ts, rate, capacity, k)
    ensures forall j :: 0 <= j < k ==>
      Admitted(ts, rate, capacity, j) == Admitted(Latest(ts), rate, capacity, j)
  {
    hide After, Latest, Admitted, SameBut;
    if k > 1 {
      OnlyLatestMatters(ts, rate, capacity, k - 1);
      SameNext(ts, rate, capacity, k - 1);
    } else if k == 1 {
      SameFirst(ts, rate, capacity);
    }
  }

  lemma {:induction false} SameCounts(ts: seq<real>, ms: seq<real>, rate: real, capacity: real, i: nat, k: nat)
    requires i <= k <= |ts| == |ms|
    requires forall j :: 0 <= j < k ==> Admitted(ts, rate, capacity, j) == Admitted(ms, rate, capacity, j)
    ensures Count(ts, rate, capacity, i, k) == Count(ms, rate, capacity, i, k)
    decreases k
  {
    hide Admitted;
    if i < k {
      SameCounts(ts, ms, rate, capacity, i, k - 1);
    }
  }

  /** The closed form and the window bound for any clock, in terms of its running maximum. */
  lemma ClosedFormAnyClock(ts: seq<real>, rate: real, capacity: real, k: nat)
    requires k < |ts| && 0.0 < rate && 0.0 < capacity
    ensures Admitted(ts, rate, capacity, k) <==>
            forall i :: 0 <= i <= k ==>
              1.0 + Count(ts, rate, capacity, i, k) as real <= Allowance(Latest(ts), rate, capacity, i, k)
    ensures forall i :: 0 <= i <= k ==>
              Count(ts, rate, capacity, i, k + 1) as real <= Allowance(Latest(ts), rate, capacity, i, k)
  {
    hide After, Admitted, Count, Latest, Allowance, Monotone;
    LatestMonotone(ts);
    OnlyLatestMatters(ts, rate, capacity, |ts|);
    ClosedForm(Latest(ts), rate, capacity, k);
    forall i | 0 <= i <= k
      ensures Count(ts, rate, capacity, i, k) == Count(Latest(ts), rate, capacity, i, k)
      ensures Count(ts, rate, capacity, i, k + 1) as real <= Allowance(Latest(ts), rate, capacity, i, k)
    {
      SameCounts(ts, Latest(ts), rate, capacity, i, k);
      SameCounts(ts, Latest(ts), rate, capacity, i, k + 1);
      WindowBound(Latest(ts), rate, capacity, i, k);
    }
  }
}
