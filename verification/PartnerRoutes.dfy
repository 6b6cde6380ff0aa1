/**
 * Partner routing at the edge: candidates for a roaming partner get scores by priority tier and a
 * weighted draw elects one peer of each tier.
 */
module PartnerRoutes {
  import opened Bytes
  import opened Selection

  const TIER_STEP := 10
  const WINNER_BONUS := 1

  datatype PartnerPeer = PartnerPeer(identity: Text, priority: int, weight: int)

  // ---------------------------------------------------------------- the weighted election

  function WeightOf(pp: PartnerPeer): (w: nat)
    ensures w > 0
  {
    if pp.weight <= 0 then 1 else pp.weight
  }

  function Total(tier: seq<PartnerPeer>): nat {
    if tier == [] then 0 else WeightOf(tier[0]) + Total(tier[1..])
  }

  /** The winner of a draw: the peers share out `0..Total` in stretches as long as their weights. */
  function Elected(tier: seq<PartnerPeer>, draw: nat): Text
    requires draw < Total(tier)
  {
    if draw < WeightOf(tier[0]) then tier[0].identity else Elected(tier[1..], draw - WeightOf(tier[0]))
  }

  lemma {:induction false} TotalAppend(a: seq<PartnerPeer>, b: seq<PartnerPeer>)
    ensures Total(a + b) == Total(a) + Total(b)
  {
    if a == [] {
      assert a + b == b;
    } else {
      TotalAppend(a[1..], b);
      assert (a + b)[1..] == a[1..] + b;
    }
  }

  /** `draw` is what the random source returned for the total. The index stays inside the tier, so
      the answer the code falls back to behind its loop is never reached. */
  method ElectWinner(tier: seq<PartnerPeer>, intn: nat -> nat) returns (winner: Text)
    requires forall n :: 0 < n ==> intn(n) < n
    ensures tier == [] ==> winner == []
    ensures tier != [] ==> intn(Total(tier)) < Total(tier) && winner == Elected(tier, intn(Total(tier)))
  {
    var total := 0;
    for i := 0 to |tier|
      invariant total == Total(tier[..i])
    {
      TotalAppend(tier[..i], [tier[i]]);
      assert tier[..i + 1] == tier[..i] + [tier[i]];
      total := total + WeightOf(tier[i]);
    }
    assert tier[..|tier|] == tier;
    if total <= 0 {
      return [];
    }
    var draw: int := intn(total);
    var i := 0;
    draw := draw - WeightOf(tier[0]);
    while draw >= 0
      invariant i < |tier| && 0 <= draw + WeightOf(tier[i]) < Total(tier[i..])
      invariant Elected(tier[i..], draw + WeightOf(tier[i])) == Elected(tier, intn(total))
      decreases |tier| - i
    {
      assert tier[i..][1..] == tier[i + 1..];
      i := i + 1;
      draw := draw - WeightOf(tier[i]);
    }
    return tier[i].identity;
  }

  /** How many of the draws below `n` elect this identity. */
  function Wins(tier: seq<PartnerPeer>, id: Text, n: nat): nat
    requires n <= Total(tier)
  {
    if n == 0 then 0 else Wins(tier, id, n - 1) + if Elected(tier, n - 1) == id then 1 else 0
  }

  /** The weight listed under this identity. */
  function Share(tier: seq<PartnerPeer>, id: Text): nat {
    if tier == [] then 0 else (if tier[0].identity == id then WeightOf(tier[0]) else 0) + Share(tier[1..], id)
  }

  lemma {:induction false} WinsPeel(tier: seq<PartnerPeer>, id: Text, n: nat)
    requires tier != [] && n <= Total(tier)
    ensures var w := WeightOf(tier[0]);
            Wins(tier, id, n) == (if tier[0].identity != id then 0 else if n < w then n else w)
                               + (if n <= w then 0 else Wins(tier[1..], id, n - w))
    decreases n
  {
    if n > 0 {
      WinsPeel(tier, id, n - 1);
    }
  }

  /** The election is exactly proportional: each identity wins as many draws as its weight. */
  lemma {:induction false} WinsExactlyTheShare(tier: seq<PartnerPeer>, id: Text)
    ensures Wins(tier, id, Total(tier)) == Share(tier, id)
    decreases |tier|
  {
    if tier != [] {
      WinsPeel(tier, id, Total(tier));
      WinsExactlyTheShare(tier[1..], id);
    }
  }

  /** With distinct identities that is the peer's own weight, and the shares use up all draws. */
  lemma {:induction false} ShareIsWeight(tier: seq<PartnerPeer>, i: nat)
    requires i < |tier| && forall a, b :: 0 <= a < b < |tier| ==> tier[a].identity != tier[b].identity
    ensures Share(tier, tier[i].identity) == WeightOf(tier[i])
    decreases |tier|
  {
    if i == 0 {
      NoShare(tier[1..], tier[0].identity);
    } else {
      ShareIsWeight(tier[1..], i - 1);
    }
  }

  lemma {:induction false} NoShare(tier: seq<PartnerPeer>, id: Text)
    requires forall i :: 0 <= i < |tier| ==> tier[i].identity != id
    ensures Share(tier, id) == 0
  {
    if tier != [] {
      NoShare(tier[1..], id);
    }
  }

  function SharesOf(tier: seq<PartnerPeer>, listed: seq<PartnerPeer>): nat {
    if listed == [] then 0 else Wins(tier, listed[0].identity, Total(tier)) + SharesOf(tier, listed[1..])
  }

  lemma {:induction false} SharesAdd(tier: seq<PartnerPeer>, k: nat)
    requires k <= |tier| && forall a, b :: 0 <= a < b < |tier| ==> tier[a].identity != tier[b].identity
    ensures SharesOf(tier, tier[k..]) == Total(tier[k..])
    decreases |tier| - k
  {
    if k < |tier| {
      SharesAdd(tier, k + 1);
      WinsExactlyTheShare(tier, tier[k].identity);
      ShareIsWeight(tier, k);
      assert tier[k..][1..] == tier[k + 1..];
    }
  }

  /** The election over distinct identities shares out every draw, each peer exactly its weight. */
  lemma ElectionIsProportional(tier: seq<PartnerPeer>)
    requires forall a, b :: 0 <= a < b < |tier| ==> tier[a].identity != tier[b].identity
    ensures forall i :: 0 <= i < |tier| ==>
              Wins(tier, tier[i].identity, Total(tier)) == if tier[i].weight <= 0 then 1 else tier[i].weight
    ensures SharesOf(tier, tier) == Total(tier)
  {
    forall i | 0 <= i < |tier|
      ensures Wins(tier, tier[i].identity, Total(tier)) == WeightOf(tier[i])
    {
      WinsExactlyTheShare(tier, tier[i].identity);
      ShareIsWeight(tier, i);
    }
    SharesAdd(tier, 0);
    assert tier[0..] == tier;
  }

  // ---------------------------------------------------------------- tiers and offers

  /** The peers of one priority, in the order listed. */
  function TierOf(peers: seq<PartnerPeer>, priority: int): seq<PartnerPeer> {
    if peers == [] then []
    else
      var pp := peers[|peers| - 1];
      TierOf(peers[..|peers| - 1], priority) + if pp.priority == priority then [pp] else []
  }

  lemma {:induction false} TierOfHolds(peers: seq<PartnerPeer>, priority: int)
    ensures forall pp :: pp in TierOf(peers, priority) <==> pp in peers && pp.priority == priority
  {
    if peers != [] {
      TierOfHolds(peers[..|peers| - 1], priority);
      assert peers == peers[..|peers| - 1] + [peers[|peers| - 1]];
    }
  }

  /** The winner of a tier, when `intn` is what the random source returns in that tier. */
  function Winner(peers: seq<PartnerPeer>, draws: int -> nat -> nat, priority: int): Text {
    var tier := TierOf(peers, priority);
    var draw := draws(priority)(Total(tier));
    if tier == [] || draw >= Total(tier) then [] else Elected(tier, draw)
  }

  /** The route a partner peer is offered with. */
  function Offer(peers: seq<PartnerPeer>, draws: int -> nat -> nat, base: int, pp: PartnerPeer): Route {
    var bonus := if pp.identity == Winner(peers, draws, pp.priority) then WINNER_BONUS else 0;
    Route(pp.identity, base - pp.priority * TIER_STEP + bonus)
  }

  // ---------------------------------------------------------------- merging offers into candidates

  /** The score of entry `i` is the best of its own earlier score and the offers for its peer. */
  ghost predicate BestOf(cs: seq<Route>, out: seq<Route>, offers: set<Route>, i: nat)
    requires i < |out|
  {
    && (i < |cs| ==> cs[i].score <= out[i].score)
    && (forall r :: r in offers && r.peer == out[i].peer ==> r.score <= out[i].score)
    && ((i < |cs| && out[i] == cs[i]) || out[i] in offers)
  }

  predicate LastOf(cs: seq<Route>, i: nat) { i < |cs| && forall j :: i < j < |cs| ==> cs[j].peer != cs[i].peer }

  predicate Places(cs: seq<Route>, out: seq<Route>) {
    |cs| <= |out| && forall i: nat :: i < |cs| ==> out[i].peer == cs[i].peer
  }

  ghost predicate Scores(cs: seq<Route>, out: seq<Route>, offers: set<Route>) {
    forall i: nat :: i < |out| ==> ScoreAt(cs, out, offers, i)
  }

  ghost predicate ScoreAt(cs: seq<Route>, out: seq<Route>, offers: set<Route>, i: nat)
    requires i < |out|
  {
    if LastOf(cs, i) || i >= |cs| then BestOf(cs, out, offers, i) else out[i] == cs[i]
  }

  ghost predicate Fresh(cs: seq<Route>, out: seq<Route>) {
    forall i, j :: 0 <= i < j < |out| && |cs| <= j ==> out[i].peer != out[j].peer
  }

  /** The entry an offer for a peer is compared with. */
  predicate Home(cs: seq<Route>, out: seq<Route>, i: nat) { i < |out| && (LastOf(cs, i) || i >= |cs|) }

  ghost predicate Placed(cs: seq<Route>, out: seq<Route>, peer: Text) {
    exists i: nat :: Home(cs, out, i) && out[i].peer == peer
  }

  ghost predicate Listed(out: seq<Route>, peer: Text) { exists i: nat :: i < |out| && out[i].peer == peer }

  /**
   * What merging means: old candidates keep their places; of those with one peer only the last is
   * lifted, to the best offer if that is higher; every other peer offered is appended once.
   */
  ghost predicate Merged(cs: seq<Route>, out: seq<Route>, offers: set<Route>) {
    && Places(cs, out) && Scores(cs, out, offers) && Fresh(cs, out)
    && (forall r :: r in offers ==> Placed(cs, out, r.peer))
  }

  /** The index names the home of every peer listed. */
  ghost predicate Indexed(cs: seq<Route>, out: seq<Route>, index: map<Text, nat>) {
    && (forall id :: id in index ==> Home(cs, out, index[id]) && out[index[id]].peer == id)
    && (forall i: nat :: i < |out| ==> out[i].peer in index)
    && (forall i: nat :: Home(cs, out, i) ==> index[out[i].peer] == i)
  }

  lemma LiftScore(cs: seq<Route>, out: seq<Route>, index: map<Text, nat>, route: Route, offers: set<Route>, i: nat)
    requires Places(cs, out) && Indexed(cs, out, index) && i < |out| && ScoreAt(cs, out, offers, i)
             && route.peer in index
    ensures var h := index[route.peer];
            var out' := if out[h].score < route.score then out[h := route] else out;
            ScoreAt(cs, out', offers + {route}, i)
  {
  }

  lemma Lift(cs: seq<Route>, out: seq<Route>, index: map<Text, nat>, route: Route, offers: set<Route>)
    requires Merged(cs, out, offers) && Indexed(cs, out, index) && route.peer in index
    ensures var h := index[route.peer];
            var out' := if out[h].score < route.score then out[h := route] else out;
            Merged(cs, out', offers + {route}) && Indexed(cs, out', index)
  {
    var h := index[route.peer];
    var out' := if out[h].score < route.score then out[h := route] else out;
    hide ScoreAt, LastOf;
    assert |out'| == |out| && forall i: nat :: i < |out| ==> out'[i].peer == out[i].peer;
    forall i: nat | i < |out'|
      ensures ScoreAt(cs, out', offers + {route}, i)
    {
      LiftScore(cs, out, index, route, offers, i);
    }
    forall r | r in offers + {route}
      ensures Placed(cs, out', r.peer)
    {
      if r in offers {
        var i: nat :| Home(cs, out, i) && out[i].peer == r.peer;
        assert Home(cs, out', i) && out'[i].peer == r.peer;
      } else {
        assert Home(cs, out', h) && out'[h].peer == r.peer;
      }
    }
    LiftIndexed(cs, out, out', index);
  }

  lemma LiftIndexed(cs: seq<Route>, out: seq<Route>, out': seq<Route>, index: map<Text, nat>)
    requires Indexed(cs, out, index) && |out'| == |out| && forall i: nat :: i < |out| ==> out'[i].peer == out[i].peer
    ensures Indexed(cs, out', index)
  {
    hide LastOf;
    assert forall i: nat :: Home(cs, out', i) <==> Home(cs, out, i);
  }

  lemma AppendScore(cs: seq<Route>, out: seq<Route>, route: Route, offers: set<Route>, i: nat)
    requires Places(cs, out) && i <= |out| && (i < |out| ==> ScoreAt(cs, out, offers, i))
    requires !Listed(out, route.peer) && forall r :: r in offers ==> Listed(out, r.peer)
    ensures ScoreAt(cs, out + [route], offers + {route}, i)
  {
    if i < |out| {
      assert out[i].peer != route.peer;
    }
  }

  lemma Append(cs: seq<Route>, out: seq<Route>, index: map<Text, nat>, route: Route, offers: set<Route>)
    requires Merged(cs, out, offers) && Indexed(cs, out, index) && route.peer !in index
    ensures Merged(cs, out + [route], offers + {route}) && Indexed(cs, out + [route], index[route.peer := |out|])
  {
    var out' := out + [route];
    hide ScoreAt, LastOf;
    assert !Listed(out, route.peer);
    forall i: nat | i < |out'|
      ensures ScoreAt(cs, out', offers + {route}, i)
    {
      AppendScore(cs, out, route, offers, i);
    }
    forall r | r in offers + {route}
      ensures Placed(cs, out', r.peer)
    {
      if r in offers {
        var i: nat :| Home(cs, out, i) && out[i].peer == r.peer;
        assert Home(cs, out', i) && out'[i].peer == r.peer;
      } else {
        assert Home(cs, out', |out|) && out'[|out|].peer == r.peer;
      }
    }
    assert forall i: nat :: i < |out| ==> (Home(cs, out', i) <==> Home(cs, out, i));
    assert Home(cs, out', |out|);
  }

  /** One offer: lift the indexed entry if it scores less, or append a new one. */
  method MergeOne(ghost cs: seq<Route>, out: seq<Route>, index: map<Text, nat>, route: Route, ghost offers: set<Route>)
      returns (out': seq<Route>, index': map<Text, nat>)
    requires Merged(cs, out, offers) && Indexed(cs, out, index)
    ensures Merged(cs, out', offers + {route}) && Indexed(cs, out', index')
  {
    hide Merged;
    if route.peer in index {
      var i := index[route.peer];
      Lift(cs, out, index, route, offers);
      index' := index;
      out' := if out[i].score < route.score then out[i := route] else out;
    } else {
      Append(cs, out, index, route, offers);
      index' := index[route.peer := |out|];
      out' := out + [route];
    }
  }

  method BuildIndex(cs: seq<Route>) returns (index: map<Text, nat>)
    ensures Merged(cs, cs, {}) && Indexed(cs, cs, index)
  {
    index := map[];
    for i := 0 to |cs|
      invariant forall id :: id in index ==> index[id] < i && cs[index[id]].peer == id
      invariant forall j :: 0 <= j < i ==> cs[j].peer in index && j <= index[cs[j].peer]
    {
      index := index[cs[i].peer := i];
    }
  }

  /** Grouping by priority. */
  method GroupTiers(peers: seq<PartnerPeer>) returns (tiers: map<int, seq<PartnerPeer>>)
    ensures forall p :: p in tiers <==> exists pp :: pp in peers && pp.priority == p
    ensures forall p :: p in tiers ==> tiers[p] == TierOf(peers, p)
  {
    tiers := map[];
    for k := 0 to |peers|
      invariant forall p :: p in tiers ==> tiers[p] == TierOf(peers[..k], p)
      invariant forall p :: p !in tiers ==> TierOf(peers[..k], p) == []
      invariant forall p :: p in tiers ==> tiers[p] != []
    {
      var pp := peers[k];
      assert peers[..k + 1][..k] == peers[..k];
      tiers := tiers[pp.priority := (if pp.priority in tiers then tiers[pp.priority] else []) + [pp]];
    }
    assert peers[..|peers|] == peers;
    forall p
      ensures p in tiers <==> exists pp :: pp in peers && pp.priority == p
    {
      TierOfHolds(peers, p);
      if p in tiers {
        assert tiers[p][0] in TierOf(peers, p);
      }
    }
  }

  /** The offers of the peers whose priority is done. */
  ghost function OffersOf(peers: seq<PartnerPeer>, draws: int -> nat -> nat, base: int, left: set<int>): set<Route> {
    set pp | pp in peers && pp.priority !in left :: Offer(peers, draws, base, pp)
  }

  /** All peers of one tier, offered in order. */
  method MergeTier(ghost cs: seq<Route>, out: seq<Route>, index: map<Text, nat>, ghost offers: set<Route>,
                   tier: seq<PartnerPeer>, ghost peers: seq<PartnerPeer>, base: int, draws: int -> nat -> nat,
                     priority: int)
      returns (out': seq<Route>, index': map<Text, nat>)
    requires forall p, n :: 0 < n ==> draws(p)(n) < n
    requires tier == TierOf(peers, priority) && tier != []
    requires Merged(cs, out, offers) && Indexed(cs, out, index)
    ensures Merged(cs, out', offers + TierOffers(tier, peers, draws, base)) && Indexed(cs, out', index')
  {
    var score := base - priority * TIER_STEP;
    var winner := ElectWinner(tier, draws(priority));
    TierOfHolds(peers, priority);
    hide Merged, Indexed, TierOf, TierOffers;
    out', index' := out, index;
    NoOffers(tier, peers, draws, base);
    assert offers + {} == offers;
    for k := 0 to |tier|
      invariant Merged(cs, out', offers + TierOffers(tier[..k], peers, draws, base)) && Indexed(cs, out', index')
    {
      var pp := tier[k];
      assert pp in tier;
      var peerScore := score;
      if pp.identity == winner {
        peerScore := peerScore + WINNER_BONUS;
      }
      var route := Route(pp.identity, peerScore);
      assert route == Offer(peers, draws, base, pp);
      ghost var done := offers + TierOffers(tier[..k], peers, draws, base);
      out', index' := MergeOne(cs, out', index', route, done);
      TierOffersNext(tier, k, peers, draws, base, offers);
    }
    assert tier[..|tier|] == tier;
  }

  ghost function TierOffers(tier: seq<PartnerPeer>, peers: seq<PartnerPeer>, draws: int -> nat -> nat,
                            base: int): set<Route> {
    set pp | pp in tier :: Offer(peers, draws, base, pp)
  }

  lemma NoOffers(tier: seq<PartnerPeer>, peers: seq<PartnerPeer>, draws: int -> nat -> nat, base: int)
    ensures TierOffers(tier[..0], peers, draws, base) == {}
  {
  }

  lemma TierOffersNext(tier: seq<PartnerPeer>, k: nat, peers: seq<PartnerPeer>, draws: int -> nat -> nat, base: int,
                       offers: set<Route>)
    requires k < |tier|
    ensures offers + TierOffers(tier[..k], peers, draws, base) + {Offer(peers, draws, base, tier[k])} ==
            offers + TierOffers(tier[..k + 1], peers, draws, base)
  {
    hide Offer;
    assert tier[..k + 1] == tier[..k] + [tier[k]];
  }

  /** applyPartnerPeers; `draws` is the random source, one draw in each tier, lowest priority value first. */
  method ApplyPartnerPeers(cs: seq<Route>, peers: seq<PartnerPeer>, base: int, draws: int -> nat -> nat)
      returns (out: seq<Route>)
    requires forall p, n :: 0 < n ==> draws(p)(n) < n
    ensures Merged(cs, out, AllOffers(peers, draws, base))
  {
    out := cs;
    var index := BuildIndex(cs);
    var tiers := GroupTiers(peers);
    hide Merged, Indexed, TierOf, Offer;
    var left := tiers.Keys;
    assert OffersOf(peers, draws, base, left) == {};
    while left != {}
      invariant left <= tiers.Keys
      invariant Merged(cs, out, OffersOf(peers, draws, base, left)) && Indexed(cs, out, index)
    {
      var priority := Least(left);
      ghost var before := OffersOf(peers, draws, base, left);
      TierOfHolds(peers, priority);
      out, index := MergeTier(cs, out, index, before, tiers[priority], peers, base, draws, priority);
      OffersGrow(peers, draws, base, left, priority);
      left := left - {priority};
    }
    assert OffersOf(peers, draws, base, {}) == AllOffers(peers, draws, base);
  }

  lemma OffersGrow(peers: seq<PartnerPeer>, draws: int -> nat -> nat, base: int, left: set<int>, priority: int)
    requires priority in left
    ensures OffersOf(peers, draws, base, left - {priority}) ==
            OffersOf(peers, draws, base, left) + TierOffers(TierOf(peers, priority), peers, draws, base)
  {
    TierOfHolds(peers, priority);
    hide TierOf, Offer;
    forall r
      ensures r in OffersOf(peers, draws, base, left - {priority}) <==>
              r in OffersOf(peers, draws, base, left) + TierOffers(TierOf(peers, priority), peers, draws, base)
    {
    }
  }

  lemma SomeIn(s: set<int>)
    ensures s != {} ==> exists p: int :: p in s
  {
    if forall p: int :: p !in s {
      assert s == {};
    }
  }

  /** The next priority in sorted order. */
  method Least(left: set<int>) returns (least: int)
    requires left != {}
    ensures least in left && forall p :: p in left ==> least <= p
  {
    var rest := left;
    SomeIn(left);
    var first: int :| first in left;
    least := first;
    while rest != {}
      invariant rest <= left && least in left
      invariant forall p :: p in left ==> p in rest || least <= p
    {
      SomeIn(rest);
      var p: int :| p in rest;
      if p < least {
        least := p;
      }
      rest := rest - {p};
    }
  }

  // ---------------------------------------------------------------- which peer can be chosen over which

  function AllOffers(peers: seq<PartnerPeer>, draws: int -> nat -> nat, base: int): set<Route> {
    set pp | pp in peers :: Offer(peers, draws, base, pp)
  }

  /** The peer already has this score, or is offered with it. */
  ghost predicate HasScore(cs: seq<Route>, offers: set<Route>, peer: Text, score: int) {
    Route(peer, score) in cs || Route(peer, score) in offers
  }

  /** The peer has or is offered with a higher score. */
  ghost predicate Outscores(cs: seq<Route>, offers: set<Route>, peer: Text, score: int) {
    exists s :: HasScore(cs, offers, peer, s) && score < s
  }

  lemma ScoreOrigin(cs: seq<Route>, out: seq<Route>, offers: set<Route>, i: nat)
    requires Merged(cs, out, offers) && i < |out|
    ensures HasScore(cs, offers, out[i].peer, out[i].score)
  {
    assert ScoreAt(cs, out, offers, i);
    assert out[i] == Route(out[i].peer, out[i].score);
    if out[i] !in offers {
      assert out[i] == cs[i];
    }
  }

  lemma ScoreReached(cs: seq<Route>, out: seq<Route>, offers: set<Route>, peer: Text, score: int) returns (i: nat)
    requires Merged(cs, out, offers) && HasScore(cs, offers, peer, score)
    ensures i < |out| && out[i].peer == peer && score <= out[i].score
  {
    if Route(peer, score) in cs {
      i :| i < |cs| && cs[i] == Route(peer, score);
      assert ScoreAt(cs, out, offers, i);
    } else {
      var r := Route(peer, score);
      assert Placed(cs, out, r.peer);
      i :| Home(cs, out, i) && out[i].peer == peer;
      assert ScoreAt(cs, out, offers, i);
    }
  }

  lemma {:induction false} HighestEntry(out: seq<Route>, peer: Text, j: nat) returns (i: nat)
    requires j < |out| && out[j].peer == peer
    ensures i < |out| && out[i].peer == peer && forall k: nat :: k < |out| && out[k].peer == peer ==>
              out[k].score <= out[i].score
  {
    var last := |out| - 1;
    if exists k: nat :: k < last && out[k].peer == peer {
      var k: nat :| k < last && out[k].peer == peer;
      i := HighestEntry(out[..last], peer, k);
      assert forall x: nat :: x < last ==> out[..last][x] == out[x];
      if out[last].peer == peer && out[last].score > out[i].score {
        i := last;
      }
    } else {
      i := j;
    }
  }

  /**
   * In numbers: every score afterwards is one the candidates had, or the base less ten for each step of
   * priority, and one more for the elected peer of the tier; and each partner peer has at least that.
   */
  lemma ScoresAre(cs: seq<Route>, out: seq<Route>, peers: seq<PartnerPeer>, draws: int -> nat -> nat, base: int)
    requires Merged(cs, out, AllOffers(peers, draws, base))
    ensures forall i :: 0 <= i < |out| ==>
              out[i] in cs || exists pp :: pp in peers && out[i] == Route(pp.identity, base - 10 * pp.priority
                + if pp.identity == Winner(peers, draws, pp.priority) then 1 else 0)
    ensures forall pp :: pp in peers ==>
              exists i :: 0 <= i < |out| && out[i].peer == pp.identity && out[i].score >= base - 10 * pp.priority
                + if pp.identity == Winner(peers, draws, pp.priority) then 1 else 0
  {
    var offers := AllOffers(peers, draws, base);
    hide Merged, Winner;
    forall i | 0 <= i < |out|
      ensures out[i] in cs || exists pp :: pp in peers && out[i] == Offer(peers, draws, base, pp)
    {
      ScoreOrigin(cs, out, offers, i);
      assert out[i] == Route(out[i].peer, out[i].score);
    }
    forall pp | pp in peers
      ensures exists i :: 0 <= i < |out| && out[i].peer == pp.identity
                          && out[i].score >= Offer(peers, draws, base, pp).score
    {
      var mine := Offer(peers, draws, base, pp);
      assert mine in offers && mine == Route(pp.identity, mine.score);
      var i := ScoreReached(cs, out, offers, pp.identity, mine.score);
    }
  }

  /** `q` cannot be chosen while `p` is not excluded. */
  ghost predicate Yields(rs: seq<Route>, q: Text, p: Text) {
    forall exclude, i: nat :: Best(rs, exclude, i) && p !in exclude ==> rs[i].peer != q
  }

  /** One peer yields to another exactly when each score it has or is offered is outscored. */
  lemma YieldsExactly(cs: seq<Route>, out: seq<Route>, offers: set<Route>, p: Text, q: Text)
    requires Merged(cs, out, offers) && p != q
    ensures Yields(out, q, p) <==> forall s :: HasScore(cs, offers, q, s) ==> Outscores(cs, offers, p, s)
  {
    if forall s :: HasScore(cs, offers, q, s) ==> Outscores(cs, offers, p, s) {
      OutscoredYields(cs, out, offers, p, q);
    } else {
      var s :| HasScore(cs, offers, q, s) && !Outscores(cs, offers, p, s);
      UnmatchedCanWin(cs, out, offers, p, q, s);
    }
  }

  lemma OutscoredYields(cs: seq<Route>, out: seq<Route>, offers: set<Route>, p: Text, q: Text)
    requires Merged(cs, out, offers) && p != q && forall s :: HasScore(cs, offers, q, s) ==> Outscores(cs, offers, p, s)
    ensures Yields(out, q, p)
  {
    hide Merged, HasScore;
    forall exclude, i: nat | Best(out, exclude, i) && p !in exclude
      ensures out[i].peer != q
    {
      ScoreOrigin(cs, out, offers, i);
      if out[i].peer == q {
        BeatenIsNotBest(cs, out, offers, p, i, exclude);
      }
    }
  }

  lemma BeatenIsNotBest(cs: seq<Route>, out: seq<Route>, offers: set<Route>, p: Text, i: nat, exclude: set<Text>)
    requires Merged(cs, out, offers) && i < |out| && Outscores(cs, offers, p, out[i].score)
    ensures p !in exclude ==> !Best(out, exclude, i)
  {
    hide Merged, HasScore;
    var s :| HasScore(cs, offers, p, s) && out[i].score < s;
    var k := ScoreReached(cs, out, offers, p, s);
    assert p !in exclude ==> Eligible(out, exclude, k);
  }

  lemma UnmatchedCanWin(cs: seq<Route>, out: seq<Route>, offers: set<Route>, p: Text, q: Text, s: int)
    requires Merged(cs, out, offers) && p != q && HasScore(cs, offers, q, s) && !Outscores(cs, offers, p, s)
    ensures !Yields(out, q, p)
  {
    hide Merged, HasScore;
    var j := ScoreReached(cs, out, offers, q, s);
    var i := HighestEntry(out, q, j);
    var exclude := set k | 0 <= k < |out| && out[k].peer != p && out[k].peer != q :: out[k].peer;
    forall k: nat | Eligible(out, exclude, k)
      ensures out[k].score <= out[i].score
    {
      if out[k].peer != q {
        assert out[k].peer == p;
        ScoreOrigin(cs, out, offers, k);
      }
    }
    assert Best(out, exclude, i);
  }

  /**
   * Peers of a later tier wait for the earlier one: such a peer can only be chosen over `pp` on the
   * strength of a score it had before, and exactly when nothing of `pp` outscores that.
   */
  lemma EarlierTierFirst(cs: seq<Route>, out: seq<Route>, peers: seq<PartnerPeer>, base: int,
                         draws: int -> nat -> nat, pp: PartnerPeer, q: Text)
    requires Merged(cs, out, AllOffers(peers, draws, base)) && pp in peers && pp.identity != q
    requires forall x :: x in peers && x.identity == q ==> x.priority > pp.priority
    ensures Yields(out, q, pp.identity) <==>
            forall s :: Route(q, s) in cs ==> Outscores(cs, AllOffers(peers, draws, base), pp.identity, s)
  {
    var offers := AllOffers(peers, draws, base);
    hide Merged, Yields, Winner;
    YieldsExactly(cs, out, offers, pp.identity, q);
    var mine := Offer(peers, draws, base, pp);
    assert mine in offers && mine == Route(pp.identity, mine.score);
    forall s | Route(q, s) in offers
      ensures Outscores(cs, offers, pp.identity, s)
    {
      var x :| x in peers && Offer(peers, draws, base, x) == Route(q, s);
      assert HasScore(cs, offers, pp.identity, mine.score) && s < mine.score;
    }
  }

  /** A peer that has no score of its own yet yields to every earlier tier. */
  lemma NewPeersWait(cs: seq<Route>, out: seq<Route>, peers: seq<PartnerPeer>, base: int, draws: int -> nat -> nat,
                     pp: PartnerPeer, q: Text)
    requires Merged(cs, out, AllOffers(peers, draws, base)) && pp in peers && pp.identity != q
    requires forall x :: x in peers && x.identity == q ==> x.priority > pp.priority
    requires forall r :: r in cs && r.peer == q ==> r.score < base - 10 * pp.priority
    ensures Yields(out, q, pp.identity)
  {
    EarlierTierFirst(cs, out, peers, base, draws, pp, q);
    hide Merged, Yields, Winner;
    var offers := AllOffers(peers, draws, base);
    var mine := Offer(peers, draws, base, pp);
    assert mine in offers && mine == Route(pp.identity, mine.score);
    forall s | Route(q, s) in cs
      ensures Outscores(cs, offers, pp.identity, s)
    {
      assert HasScore(cs, offers, pp.identity, mine.score) && s < mine.score;
    }
  }

  /** The elected peer of a tier goes before the others of that tier. */
  lemma WinnerFirst(cs: seq<Route>, out: seq<Route>, peers: seq<PartnerPeer>, base: int, draws: int -> nat -> nat,
                    pp: PartnerPeer, q: Text)
    requires Merged(cs, out, AllOffers(peers, draws, base)) && pp in peers && pp.identity != q
    requires pp.identity == Winner(peers, draws, pp.priority)
    requires forall x :: x in peers && x.identity == q ==> x.priority >= pp.priority
    requires forall r :: r in cs && r.peer == q ==> r.score <= base - 10 * pp.priority
    ensures Yields(out, q, pp.identity)
  {
    var offers := AllOffers(peers, draws, base);
    hide Merged, Yields, Winner;
    YieldsExactly(cs, out, offers, pp.identity, q);
    var mine := Offer(peers, draws, base, pp);
    assert mine in offers && mine == Route(pp.identity, mine.score);
    assert HasScore(cs, offers, pp.identity, mine.score);
    forall s | HasScore(cs, offers, q, s)
      ensures Outscores(cs, offers, pp.identity, s)
    {
      if Route(q, s) in offers {
        var x :| x in peers && Offer(peers, draws, base, x) == Route(q, s);
      }
      assert s < mine.score;
    }
  }

  /** The tie-breaking extensions that run afterwards keep every such order. */
  lemma YieldsAfterTieBreaks(out: seq<Route>, nudged: seq<Route>, p: Text, q: Text)
    requires Yields(out, q, p) && KeepsOrder(out, nudged)
    ensures Yields(nudged, q, p)
  {
    forall exclude, i: nat | Best(nudged, exclude, i) && p !in exclude
      ensures nudged[i].peer != q
    {
      TieBreakIsBest(out, nudged, exclude, i);
    }
  }

  // ---------------------------------------------------------------- the handler

  datatype Partner = Partner(name: Text, external: bool, allowTransit: bool, peers: seq<PartnerPeer>)

  /** The peer belongs to a partner in an external zone, and not to the one that owns the destination. */
  predicate Foreign(owner: Text -> Option<Partner>, dest: Option<Partner>, peer: Text) {
    && owner(peer).Some? && owner(peer).value.external
    && (dest == None || owner(peer).value.name != dest.value.name)
  }

  function Own(cs: seq<Route>, owner: Text -> Option<Partner>, dest: Option<Partner>): seq<Route> {
    if cs == [] then []
    else
      var r := cs[|cs| - 1];
      Own(cs[..|cs| - 1], owner, dest) + if Foreign(owner, dest, r.peer) then [] else [r]
  }

  /**
   * What is left are the candidates that no partner of an external zone lists, and those of the very
   * partner that owns the destination.
   */
  lemma {:induction false} OwnHolds(cs: seq<Route>, owner: Text -> Option<Partner>, dest: Option<Partner>)
    ensures forall r :: r in Own(cs, owner, dest) <==>
              r in cs && (owner(r.peer) == None || !owner(r.peer).value.external
                          || (dest.Some? && owner(r.peer).value.name == dest.value.name))
  {
    if cs != [] {
      OwnHolds(cs[..|cs| - 1], owner, dest);
      assert cs == cs[..|cs| - 1] + [cs[|cs| - 1]];
    }
  }

  method DropForeignExternal(cs: seq<Route>, owner: Text -> Option<Partner>, dest: Option<Partner>)
      returns (kept: seq<Route>)
    ensures kept == Own(cs, owner, dest)
  {
    kept := [];
    for i := 0 to |cs|
      invariant kept == Own(cs[..i], owner, dest)
    {
      var c := cs[i];
      assert cs[..i + 1][..i] == cs[..i];
      var partner := owner(c.peer);
      if partner.Some? && partner.value.external && (dest == None || partner.value.name != dest.value.name) {
        continue;
      }
      kept := kept + [c];
    }
    assert cs[..|cs|] == cs;
  }

  predicate TransitRefused(origin: Option<Partner>, dest: Option<Partner>) {
    origin.Some? && dest.Some? && origin.value.name != dest.value.name && !origin.value.allowTransit
  }

  /**
   * `owner` is the registry's answer for a peer identity. A partner that does not allow transit reaches no
   * other partner: no candidate is left, internal ones included.
   */
  method HandleRouting(cs: seq<Route>, active: bool, origin: Option<Partner>, dest: Option<Partner>,
                       owner: Text -> Option<Partner>, base: int, draws: int -> nat -> nat) returns (out: seq<Route>)
    requires forall p, n :: 0 < n ==> draws(p)(n) < n
    ensures !active ==> out == cs
    ensures (active && origin.Some? && dest.Some? && origin.value.name != dest.value.name
             && origin.value.allowTransit == false) ==> out == []
    ensures active && (origin == None || dest == None || origin.value.name == dest.value.name
              || origin.value.allowTransit == true) ==>
      Merged(Own(cs, owner, dest), out, AllOffers(if dest.Some? then dest.value.peers else [], draws, base))
  {
    if !active {
      return cs;
    }
    if TransitRefused(origin, dest) {
      return [];
    }
    var kept := DropForeignExternal(cs, owner, dest);
    if dest == None || |dest.value.peers| == 0 {
      MergedNothing(kept);
      assert AllOffers([], draws, base) == {};
      return kept;
    }
    out := ApplyPartnerPeers(kept, dest.value.peers, base, draws);
  }

  /** The handler followed by the tie-breaking extensions: every order it set up is still there for the choice. */
  method HandleThenBreakTies(cs: seq<Route>, active: bool, origin: Option<Partner>, dest: Option<Partner>,
                             owner: Text -> Option<Partner>, base: int, draws: int -> nat -> nat,
                             pending: map<Text, nat>, coins: nat -> bool) returns (out: seq<Route>, final: seq<Route>)
    requires forall p, n :: 0 < n ==> draws(p)(n) < n
    ensures (active && origin.Some? && dest.Some? && origin.value.name != dest.value.name
             && origin.value.allowTransit == false) ==> final == []
    ensures active && (origin == None || dest == None || origin.value.name == dest.value.name
              || origin.value.allowTransit == true) ==>
      Merged(Own(cs, owner, dest), out, AllOffers(if dest.Some? then dest.value.peers else [], draws, base))
    ensures |final| == |out| && forall p, q :: Yields(out, q, p) ==> Yields(final, q, p)
  {
    hide Merged, Own, Yields, KeepsOrder;
    out := HandleRouting(cs, active, origin, dest, owner, base, draws);
    var a := new Route[|out|](i requires 0 <= i < |out| => out[i]);
    assert a[..] == out;
    BreakTies(a, pending, coins);
    final := a[..];
    forall p, q | Yields(out, q, p)
      ensures Yields(final, q, p)
    {
      YieldsAfterTieBreaks(out, final, p, q);
    }
  }

  /** A handler that leaves no candidate ends the choice, whatever the handlers around it do. */
  lemma {:induction false} EmptyEnds(before: seq<Handler>, h: Handler, after: seq<Handler>, candidates: seq<Route>)
    requires forall cs :: h(cs) == Some([])
    ensures Handled(before + [h] + after, candidates) == None
    decreases |before|
  {
    var all := before + [h] + after;
    if candidates != [] {
      if before == [] {
        assert all[0] == h;
      } else {
        assert all[0] == before[0] && all[1..] == before[1..] + [h] + after;
        if before[0](candidates).Some? {
          EmptyEnds(before[1..], h, after, before[0](candidates).value);
        }
      }
    }
  }

  /**
   * RouteOut with this handler among others, `h` answering as `HandleRouting` does: a refused transit finds
   * no peer, whatever else is a candidate and whatever is excluded.
   */
  method RouteOverEdge(candidates: seq<Route>, before: seq<Handler>, h: Handler, after: seq<Handler>,
                       origin: Option<Partner>, dest: Option<Partner>, exclude: set<Text>,
                       sort: seq<Route> -> seq<Route>, rnd: nat -> nat) returns (peer: Option<Text>)
    requires forall cs :: h(cs).Some? && (TransitRefused(origin, dest) ==> h(cs).value == [])
    requires forall s :: SortedDown(sort(s)) && multiset(sort(s)) == multiset(s)
    requires forall n :: 0 < n ==> rnd(n) < n
    ensures (origin.Some? && dest.Some? && origin.value.name != dest.value.name
             && origin.value.allowTransit == false) ==> peer == None
  {
    peer := RouteOut(candidates, before + [h] + after, exclude, sort, rnd);
    if TransitRefused(origin, dest) {
      EmptyEnds(before, h, after, candidates);
    }
  }

  lemma MergedNothing(cs: seq<Route>)
    ensures Merged(cs, cs, {})
  {
  }

  /**
   * No peer of an external partner other than the destination's own is left, exactly when the destination
   * partner lists none.
   */
  lemma NoForeignPeer(cs: seq<Route>, out: seq<Route>, owner: Text -> Option<Partner>, dest: Option<Partner>,
                      peers: seq<PartnerPeer>,
                      base: int, draws: int -> nat -> nat)
    requires Merged(Own(cs, owner, dest), out, AllOffers(peers, draws, base))
    ensures (forall r :: r in out ==>
               (owner(r.peer) == None || !owner(r.peer).value.external
                || (dest.Some? && owner(r.peer).value.name == dest.value.name)))
            <==> forall pp :: pp in peers ==>
                   (owner(pp.identity) == None || !owner(pp.identity).value.external
                    || (dest.Some? && owner(pp.identity).value.name == dest.value.name))
  {
    assert forall id :: !Foreign(owner, dest, id) <==>
             owner(id) == None || !owner(id).value.external || (dest.Some? && owner(id).value.name == dest.value.name);
    var own, offers := Own(cs, owner, dest), AllOffers(peers, draws, base);
    OwnHolds(cs, owner, dest);
    hide Own, Foreign, Winner, Merged;
    if forall pp :: pp in peers ==> !Foreign(owner, dest, pp.identity) {
      forall r | r in out
        ensures !Foreign(owner, dest, r.peer)
      {
        var i :| 0 <= i < |out| && out[i] == r;
        ScoreOrigin(own, out, offers, i);
      }
    }
    if forall r :: r in out ==> !Foreign(owner, dest, r.peer) {
      forall pp | pp in peers
        ensures !Foreign(owner, dest, pp.identity)
      {
        var mine := Offer(peers, draws, base, pp);
        assert mine in offers && mine == Route(pp.identity, mine.score);
        var i := ScoreReached(own, out, offers, pp.identity, mine.score);
        assert out[i] in out;
      }
    }
  }
}
