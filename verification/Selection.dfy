/**
 * How the router chooses among scored candidates, and the two extensions that nudge the scores
 * just before the choice.
 */
module Selection {
  import opened Bytes

  datatype Route = Route(peer: Text, score: int)

  predicate Eligible(rs: seq<Route>, exclude: set<Text>, i: nat) { i < |rs| && rs[i].peer !in exclude }

  /** Candidate `i` may be chosen: it is not excluded and no candidate left scores higher. */
  ghost predicate Best(rs: seq<Route>, exclude: set<Text>, i: nat) {
    Eligible(rs, exclude, i) && forall j: nat :: Eligible(rs, exclude, j) ==> rs[j].score <= rs[i].score
  }

  predicate SortedDown(rs: seq<Route>) { forall i, j :: 0 <= i <= j < |rs| ==> rs[i].score >= rs[j].score }

  /** The candidates of one score that are not excluded, in order. */
  function Tier(rs: seq<Route>, exclude: set<Text>, score: int): seq<Route> {
    if rs == [] then []
    else
      var r := rs[|rs| - 1];
      Tier(rs[..|rs| - 1], exclude, score) + if r.score == score && r.peer !in exclude then [r] else []
  }

  lemma {:induction false} TierHolds(rs: seq<Route>, exclude: set<Text>, score: int)
    ensures forall r :: r in Tier(rs, exclude, score) <==> r in rs && r.score == score && r.peer !in exclude
  {
    if rs != [] {
      TierHolds(rs[..|rs| - 1], exclude, score);
      assert rs == rs[..|rs| - 1] + [rs[|rs| - 1]];
    }
  }

  function Occurs(rs: seq<Route>, r: Route): nat {
    if rs == [] then 0 else Occurs(rs[..|rs| - 1], r) + if rs[|rs| - 1] == r then 1 else 0
  }

  lemma OccursNext(rs: seq<Route>, last: Route, r: Route)
    ensures Occurs(rs + [last], r) == Occurs(rs, r) + if last == r then 1 else 0
  {
    assert (rs + [last])[..|rs|] == rs;
  }

  lemma {:induction false} OccursCounts(rs: seq<Route>, r: Route)
    ensures multiset(rs)[r] == Occurs(rs, r)
  {
    if rs != [] {
      OccursCounts(rs[..|rs| - 1], r);
      assert rs == rs[..|rs| - 1] + [rs[|rs| - 1]];
    }
  }

  /** What the draw inside a tier chooses from does not depend on how the sort left ties. */
  lemma {:induction false} TierOccurs(rs: seq<Route>, exclude: set<Text>, score: int, r: Route)
    ensures Occurs(Tier(rs, exclude, score), r) == if r.score == score && r.peer !in exclude then Occurs(rs, r) else 0
  {
    if rs != [] {
      TierOccurs(rs[..|rs| - 1], exclude, score, r);
      var before := Tier(rs[..|rs| - 1], exclude, score);
      OccursNext(before, rs[|rs| - 1], r);
      assert before + [] == before;
    }
  }

  lemma TierCounts(rs: seq<Route>, exclude: set<Text>, score: int, r: Route)
    ensures multiset(Tier(rs, exclude, score))[r]
            == if r.score == score && r.peer !in exclude then multiset(rs)[r] else 0
  {
    hide Tier, Occurs;
    TierOccurs(rs, exclude, score, r);
    OccursCounts(rs, r);
    OccursCounts(Tier(rs, exclude, score), r);
  }

  lemma TierIgnoresTies(sorted: seq<Route>, rs: seq<Route>, exclude: set<Text>, score: int)
    requires multiset(sorted) == multiset(rs)
    ensures multiset(Tier(sorted, exclude, score)) == multiset(Tier(rs, exclude, score))
  {
    forall r
      ensures multiset(Tier(sorted, exclude, score))[r] == multiset(Tier(rs, exclude, score))[r]
    {
      TierCounts(sorted, exclude, score, r);
      TierCounts(rs, exclude, score, r);
    }
  }

  lemma {:induction false} TierAppend(a: seq<Route>, b: seq<Route>, exclude: set<Text>, score: int)
    ensures Tier(a + b, exclude, score) == Tier(a, exclude, score) + Tier(b, exclude, score)
  {
    if b == [] {
      assert a + b == a;
    } else {
      TierAppend(a, b[..|b| - 1], exclude, score);
      assert (a + b)[..|a + b| - 1] == a + b[..|b| - 1];
    }
  }

  lemma {:induction false} TierOfOthers(rs: seq<Route>, exclude: set<Text>, score: int)
    requires forall i :: 0 <= i < |rs| ==> rs[i].score != score
    ensures Tier(rs, exclude, score) == []
  {
    if rs != [] {
      TierOfOthers(rs[..|rs| - 1], exclude, score);
    }
  }

  /** In a sorted list the tier of a score is one stretch. */
  lemma TierIsAStretch(sorted: seq<Route>, exclude: set<Text>, start: nat, end: nat)
    requires SortedDown(sorted) && start < end <= |sorted|
    requires forall j :: start <= j < end ==> sorted[j].score == sorted[start].score
    requires start > 0 ==> sorted[start].score < sorted[start - 1].score
    requires end < |sorted| ==> sorted[end].score != sorted[start].score
    ensures Tier(sorted, exclude, sorted[start].score) == Tier(sorted[start..end], exclude, sorted[start].score)
  {
    var score := sorted[start].score;
    var a, b, c := sorted[..start], sorted[start..end], sorted[end..];
    assert sorted == (a + b) + c;
    assert forall j :: 0 <= j < start ==> sorted[j].score >= sorted[start - 1].score;
    assert forall j :: end <= j < |sorted| ==> sorted[j].score <= sorted[end].score;
    TierMiddle(a, b, c, exclude, score);
  }

  lemma TierMiddle(a: seq<Route>, b: seq<Route>, c: seq<Route>, exclude: set<Text>, score: int)
    requires forall i :: 0 <= i < |a| ==> a[i].score != score
    requires forall i :: 0 <= i < |c| ==> c[i].score != score
    ensures Tier((a + b) + c, exclude, score) == Tier(b, exclude, score)
  {
    hide Tier;
    TierOfOthers(a, exclude, score);
    TierOfOthers(c, exclude, score);
    TierAppend(a + b, c, exclude, score);
    TierAppend(a, b, exclude, score);
  }

  ghost predicate AllExcluded(rs: seq<Route>, exclude: set<Text>) { forall r :: r in rs ==> r.peer in exclude }

  /** A draw over everything that ties for the best score among the candidates left. */
  ghost predicate DrawnFromBest(rs: seq<Route>, exclude: set<Text>, rnd: nat -> nat, peer: Text, k: nat) {
    && Best(rs, exclude, k)
    && var tier := Tier(rs, exclude, rs[k].score);
       rnd(|tier|) < |tier| && peer == tier[rnd(|tier|)].peer
  }

  lemma TopIsBest(sorted: seq<Route>, exclude: set<Text>, start: nat, r: Route)
    requires SortedDown(sorted) && start < |sorted| && (forall j :: 0 <= j < start ==> sorted[j].peer in exclude)
    requires r in Tier(sorted, exclude, sorted[start].score)
    ensures exists k: nat :: Best(sorted, exclude, k) && sorted[k] == r
  {
    TierHolds(sorted, exclude, sorted[start].score);
    var k :| 0 <= k < |sorted| && sorted[k] == r;
    forall j: nat | Eligible(sorted, exclude, j)
      ensures sorted[j].score <= sorted[k].score
    {
      assert j >= start;
    }
    assert Best(sorted, exclude, k);
  }

  /**
   * The tier walk over the sorted candidates. `sorted` is what the library's unstable sort left and
   * `rnd` the random source.
   */
  method Choose(sorted: seq<Route>, exclude: set<Text>, rnd: nat -> nat) returns (peer: Option<Text>)
    requires SortedDown(sorted) && forall n :: 0 < n ==> rnd(n) < n
    ensures peer == None <==> AllExcluded(sorted, exclude)
    ensures peer.Some? ==> exists k: nat :: DrawnFromBest(sorted, exclude, rnd, peer.value, k)
  {
    var i := 0;
    while i < |sorted|
      invariant i <= |sorted|
      invariant forall j :: 0 <= j < i ==> sorted[j].peer in exclude
      invariant 0 < i < |sorted| ==> sorted[i].score < sorted[i - 1].score
    {
      var topScore, start := sorted[i].score, i;
      while i < |sorted| && sorted[i].score == topScore
        invariant start <= i <= |sorted|
        invariant forall j :: start <= j < i ==> sorted[j].score == topScore
      {
        i := i + 1;
      }
      TierIsAStretch(sorted, exclude, start, i);
      var choices := TierChoices(sorted[start..i], exclude, topScore);
      if |choices| == 0 {
        forall j | start <= j < i
          ensures sorted[j].peer in exclude
        {
          TierHolds(sorted, exclude, topScore);
          assert sorted[j] in sorted;
        }
        continue;
      }
      var x := if |choices| == 1 then 0 else rnd(|choices|);
      assert x == rnd(|choices|);
      TopIsBest(sorted, exclude, start, choices[x]);
      TierHolds(sorted, exclude, topScore);
      ghost var k: nat :| Best(sorted, exclude, k) && sorted[k] == choices[x];
      assert DrawnFromBest(sorted, exclude, rnd, choices[x].peer, k);
      return Some(choices[x].peer);
    }
    return None;
  }

  method TierChoices(tier: seq<Route>, exclude: set<Text>, score: int) returns (choices: seq<Route>)
    requires forall j :: 0 <= j < |tier| ==> tier[j].score == score
    ensures choices == Tier(tier, exclude, score)
  {
    choices := [];
    for j := 0 to |tier|
      invariant choices == Tier(tier[..j], exclude, score)
    {
      assert tier[..j + 1][..j] == tier[..j];
      if tier[j].peer !in exclude {
        choices := choices + [tier[j]];
      }
    }
    assert tier[..|tier|] == tier;
  }

  // ---------------------------------------------------------------- the whole choice

  /** A routing handler rescores, drops or adds candidates, or fails. */
  type Handler = seq<Route> -> Option<seq<Route>>

  /** The candidates after all handlers; nothing if one fails or leaves none. */
  function Handled(handlers: seq<Handler>, rs: seq<Route>): Option<seq<Route>>
    decreases |handlers|
  {
    if rs == [] then None
    else if handlers == [] then Some(rs)
    else
      var next := handlers[0](rs);
      if next.Some? then Handled(handlers[1..], next.value) else None
  }

  /** RouteOutWithExclusion: `sort` is the library's sort and `rnd` the random source. */
  method RouteOut(candidates: seq<Route>, handlers: seq<Handler>, exclude: set<Text>,
                  sort: seq<Route> -> seq<Route>, rnd: nat -> nat) returns (peer: Option<Text>)
    requires forall s :: SortedDown(sort(s)) && multiset(sort(s)) == multiset(s)
    requires forall n :: 0 < n ==> rnd(n) < n
    ensures peer == None <==>
              Handled(handlers, candidates) == None || AllExcluded(Handled(handlers, candidates).value, exclude)
    ensures peer.Some? ==> var rs := Handled(handlers, candidates).value;
              peer.value !in exclude && exists k: nat :: Best(rs, exclude, k) && rs[k].peer == peer.value
  {
    if |candidates| == 0 {
      return None;
    }
    var rs := candidates;
    for i := 0 to |handlers|
      invariant rs != [] && Handled(handlers[i..], rs) == Handled(handlers, candidates)
    {
      assert handlers[i..][0] == handlers[i] && handlers[i..][1..] == handlers[i + 1..];
      var next := handlers[i](rs);
      if next == None {
        return None;
      }
      rs := next.value;
      if |rs| == 0 {
        return None;
      }
    }
    var sorted := sort(rs);
    peer := Choose(sorted, exclude, rnd);
    SameCandidates(sorted, rs);
    if peer.Some? {
      ghost var k: nat :| DrawnFromBest(sorted, exclude, rnd, peer.value, k);
      DrawnIsBest(sorted, rs, exclude, rnd, peer.value, k);
    }
  }

  lemma SameCandidates(sorted: seq<Route>, rs: seq<Route>)
    requires multiset(sorted) == multiset(rs)
    ensures forall r :: r in sorted <==> r in rs
  {
    forall r
      ensures r in sorted <==> r in rs
    {
      assert r in sorted <==> r in multiset(sorted);
      assert r in rs <==> r in multiset(rs);
    }
  }

  /** The choice is a best candidate of the list before sorting too. */
  lemma DrawnIsBest(sorted: seq<Route>, rs: seq<Route>, exclude: set<Text>, rnd: nat -> nat, peer: Text, k: nat)
    requires multiset(sorted) == multiset(rs) && DrawnFromBest(sorted, exclude, rnd, peer, k)
    ensures peer !in exclude && exists i: nat :: Best(rs, exclude, i) && rs[i].peer == peer
  {
    SameCandidates(sorted, rs);
    var tier := Tier(sorted, exclude, sorted[k].score);
    var r := tier[rnd(|tier|)];
    TierHolds(sorted, exclude, sorted[k].score);
    assert r in tier;
    var i :| 0 <= i < |rs| && rs[i] == r;
    forall j: nat | Eligible(rs, exclude, j)
      ensures rs[j].score <= rs[i].score
    {
      assert rs[j] in rs;
      var x :| 0 <= x < |sorted| && sorted[x] == rs[j];
      assert Eligible(sorted, exclude, x);
    }
    assert Best(rs, exclude, i);
  }

  /** Any candidates can be sorted as RouteOut asks of the library. */
  lemma {:induction false} SortExists(rs: seq<Route>) returns (sorted: seq<Route>)
    ensures SortedDown(sorted) && multiset(sorted) == multiset(rs)
    decreases |rs|
  {
    if rs == [] {
      sorted := [];
    } else {
      var rest := SortExists(rs[1..]);
      var k := PlaceFor(rest, rs[0]);
      sorted := rest[..k] + [rs[0]] + rest[k..];
      assert rs == [rs[0]] + rs[1..] && rest == rest[..k] + rest[k..];
    }
  }

  lemma {:induction false} PlaceFor(sorted: seq<Route>, r: Route) returns (k: nat)
    requires SortedDown(sorted)
    ensures k <= |sorted|
    ensures forall i :: 0 <= i < k ==> sorted[i].score >= r.score
    ensures forall i :: k <= i < |sorted| ==> sorted[i].score <= r.score
  {
    if sorted == [] || sorted[|sorted| - 1].score >= r.score {
      k := |sorted|;
    } else {
      k := PlaceFor(sorted[..|sorted| - 1], r);
    }
  }

  // ---------------------------------------------------------------- breaking ties

  /** A rescoring of the same candidates that never lifts one past another that scored higher. */
  ghost predicate KeepsOrder(old_: seq<Route>, new_: seq<Route>) {
    && |old_| == |new_|
    && (forall i :: 0 <= i < |old_| ==> old_[i].peer == new_[i].peer)
    && (forall i, j :: 0 <= i < |old_| && 0 <= j < |old_| && old_[i].score < old_[j].score ==>
        new_[i].score < new_[j].score)
  }

  /** Exactly the rescorings that only break ties, whatever peers are excluded. */
  lemma OnlyBreaksTies(xs: seq<Route>, ys: seq<Route>)
    requires |xs| == |ys| && forall i :: 0 <= i < |xs| ==> xs[i].peer == ys[i].peer
    requires forall i, j :: 0 <= i < j < |xs| ==> xs[i].peer != xs[j].peer
    ensures KeepsOrder(xs, ys) <==> forall exclude, i: nat :: Best(ys, exclude, i) ==> Best(xs, exclude, i)
  {
    if KeepsOrder(xs, ys) {
      forall exclude, i: nat | Best(ys, exclude, i)
        ensures Best(xs, exclude, i)
      {
        TieBreakIsBest(xs, ys, exclude, i);
      }
    }
    if forall exclude, i: nat :: Best(ys, exclude, i) ==> Best(xs, exclude, i) {
      forall i, j | 0 <= i < |xs| && 0 <= j < |xs| && xs[i].score < xs[j].score
        ensures ys[i].score < ys[j].score
      {
        var exclude := set k | 0 <= k < |xs| && k != i && k != j :: xs[k].peer;
        assert Eligible(xs, exclude, i) && Eligible(xs, exclude, j);
        assert !Best(xs, exclude, i);
        assert !Best(ys, exclude, i);
        assert forall k: nat :: Eligible(ys, exclude, k) ==> k == i || k == j;
      }
    }
  }

  /** Peers listed more than once included: what may be chosen afterwards might have been before. */
  lemma TieBreakIsBest(xs: seq<Route>, ys: seq<Route>, exclude: set<Text>, i: nat)
    requires KeepsOrder(xs, ys) && Best(ys, exclude, i)
    ensures Best(xs, exclude, i)
  {
    assert forall j: nat :: Eligible(xs, exclude, j) <==> Eligible(ys, exclude, j);
  }

  lemma KeepsOrderThrough(xs: seq<Route>, ys: seq<Route>, zs: seq<Route>)
    requires KeepsOrder(xs, ys) && KeepsOrder(ys, zs)
    ensures KeepsOrder(xs, zs)
  {
  }

  predicate IsTop(rs: seq<Route>, i: nat) { i < |rs| && forall j :: 0 <= j < |rs| ==> rs[j].score <= rs[i].score }

  function PendingOf(pending: map<Text, nat>, peer: Text): nat { if peer in pending then pending[peer] else 0 }

  /** The first top-scored candidate with the fewest pending requests among the top-scored. */
  predicate LeastLoaded(rs: seq<Route>, pending: map<Text, nat>, i: nat) {
    && IsTop(rs, i)
    && (forall j: nat :: j < |rs| && IsTop(rs, j) ==> PendingOf(pending, rs[i].peer) <= PendingOf(pending, rs[j].peer))
    && (forall j: nat :: j < i && IsTop(rs, j) ==> PendingOf(pending, rs[i].peer) < PendingOf(pending, rs[j].peer))
  }

  /** A peer nothing is known of counts as one without pending requests. */
  lemma IdleGoesFirst(rs: seq<Route>, pending: map<Text, nat>, i: nat, j: nat)
    requires LeastLoaded(rs, pending, i) && j < |rs| && IsTop(rs, j) && rs[j].peer !in pending
    ensures rs[i].peer !in pending || pending[rs[i].peer] == 0
    ensures i <= j
  {
    assert PendingOf(pending, rs[i].peer) <= 0;
    if j < i {
      assert false;
    }
  }

  function Boosted(rs: seq<Route>, i: nat): seq<Route>
    requires i < |rs|
  {
    rs[i := rs[i].(score := rs[i].score + 1)]
  }

  method MaxScore(a: array<Route>) returns (maxScore: int)
    requires a.Length > 0
    ensures forall i :: 0 <= i < a.Length ==> a[i].score <= maxScore
    ensures exists i :: 0 <= i < a.Length && a[i].score == maxScore
  {
    maxScore := a[0].score;
    for i := 1 to a.Length
      invariant forall j :: 0 <= j < i ==> a[j].score <= maxScore
      invariant exists j :: 0 <= j < i && a[j].score == maxScore
    {
      if a[i].score > maxScore {
        maxScore := a[i].score;
      }
    }
  }

  /** rt_load_balance: one more point for the least loaded of the top candidates. */
  method LoadBalance(a: array<Route>, pending: map<Text, nat>)
    modifies a
    ensures a.Length <= 1 ==> a[..] == old(a[..])
    ensures a.Length > 1 ==> exists i: nat :: LeastLoaded(old(a[..]), pending, i) && a[..] == Boosted(old(a[..]), i)
    ensures KeepsOrder(old(a[..]), a[..])
  {
    if a.Length <= 1 {
      return;
    }
    ghost var was := a[..];
    var maxScore := MaxScore(a);
    var minPending := -1;
    for i := 0 to a.Length
      invariant minPending >= -1
      invariant minPending == -1 <==> forall j :: 0 <= j < i ==> a[j].score != maxScore
      invariant minPending >= 0 ==>
                  exists j :: 0 <= j < i && a[j].score == maxScore && PendingOf(pending, a[j].peer) == minPending
      invariant forall j :: 0 <= j < i && a[j].score == maxScore ==> minPending <= PendingOf(pending, a[j].peer)
    {
      if a[i].score == maxScore {
        var pc := PendingOf(pending, a[i].peer);
        if minPending < 0 || pc < minPending {
          minPending := pc;
        }
      }
    }
    for i := 0 to a.Length
      invariant a[..] == was
      invariant forall j :: 0 <= j < i ==> a[j].score != maxScore || PendingOf(pending, a[j].peer) != minPending
    {
      if a[i].score == maxScore && PendingOf(pending, a[i].peer) == minPending {
        a[i] := Route(a[i].peer, a[i].score + 1);
        assert LeastLoaded(was, pending, i) && a[..] == Boosted(was, i);
        return;
      }
    }
    assert false;
  }

  /** rt_randomize: a coin for each of several top candidates. `coins` is the random source. */
  method Randomize(a: array<Route>, coins: nat -> bool)
    modifies a
    ensures a.Length == |old(a[..])| && forall i :: 0 <= i < a.Length ==>
              a[i].peer == old(a[i].peer)
              && a[i].score == old(a[i].score) + (if Tied(old(a[..]), i) && coins(i) then 1 else 0)
    ensures KeepsOrder(old(a[..]), a[..])
  {
    if a.Length <= 1 {
      return;
    }
    ghost var was := a[..];
    var maxScore := MaxScore(a);
    var tieCount := 0;
    for i := 0 to a.Length
      invariant 0 <= tieCount <= i
      invariant tieCount == 0 <==> forall j :: 0 <= j < i ==> a[j].score != maxScore
      invariant tieCount >= 2 <==> exists j, k :: 0 <= j < k < i && a[j].score == maxScore == a[k].score
    {
      if a[i].score == maxScore {
        tieCount := tieCount + 1;
      }
    }
    if tieCount <= 1 {
      return;
    }
    for i := 0 to a.Length
      invariant forall j :: i <= j < a.Length ==> a[j] == was[j]
      invariant forall j :: 0 <= j < i ==>
                  && a[j].peer == was[j].peer
                  && a[j].score == was[j].score + (if was[j].score == maxScore && coins(j) then 1 else 0)
    {
      if a[i].score == maxScore && coins(i) {
        a[i] := Route(a[i].peer, a[i].score + 1);
      }
    }
  }

  /** One of at least two top candidates. */
  ghost predicate Tied(rs: seq<Route>, i: nat) {
    IsTop(rs, i) && exists j: nat :: j < |rs| && j != i && rs[j].score == rs[i].score
  }

  /** The two extensions as registered, at priorities 60 and 70. */
  method BreakTies(a: array<Route>, pending: map<Text, nat>, coins: nat -> bool)
    modifies a
    ensures KeepsOrder(old(a[..]), a[..])
  {
    hide KeepsOrder;
    LoadBalance(a, pending);
    ghost var mid := a[..];
    Randomize(a, coins);
    KeepsOrderThrough(old(a[..]), mid, a[..]);
  }
}
