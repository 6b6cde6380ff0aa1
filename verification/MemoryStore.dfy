/**
 * The pseudonym store as the object the code declares: its maps, lists and counters are
 * changed step by step, and each method is proved against the function of `PseudonymStore`
 * that says what it does to the whole state.
 */
module MemoryStore {
  import opened Bytes
  import opened Names
  import opened PseudonymStore

  /** Eviction choices made so far by the store-wide loop, and the state they lead to. */
  ghost predicate Reaches(s0: Store, victims: seq<Text>, s: Store)
    requires Consistent(s0)
    decreases |victims|
  {
    if victims == [] then s == s0
    else
      && 0 < s0.maxEntries < s0.total && IsLargest(s0, victims[0]) && CanEvict(s0, victims[0])
      && (EvictOldestConsistent(s0, victims[0]);
          Reaches(EvictOldest(s0, victims[0]), victims[1..], s))
  }

  lemma {:induction false} ReachesNext(s0: Store, victims: seq<Text>, s: Store, v: Text)
    requires Consistent(s0) && Reaches(s0, victims, s) && Consistent(s)
    requires 0 < s.maxEntries < s.total && IsLargest(s, v) && CanEvict(s, v)
    ensures Reaches(s0, victims + [v], EvictOldest(s, v))
    decreases |victims|
  {
    hide EvictOldest, Consistent, IsLargest;
    if victims == [] {
      EvictOldestConsistent(s0, v);
      assert (victims + [v])[1..] == [];
    } else {
      EvictOldestConsistent(s0, victims[0]);
      ReachesNext(EvictOldest(s0, victims[0]), victims[1..], s, v);
      assert (victims + [v])[1..] == victims[1..] + [v];
    }
  }

  lemma {:induction false} ReachesEnd(s0: Store, victims: seq<Text>, s: Store)
    requires Consistent(s0) && Reaches(s0, victims, s) && (s.maxEntries <= 0 || s.total <= s.maxEntries)
    ensures Legal(s0, victims) && EvictGlobal(s0, victims) == s
    decreases |victims|
  {
    hide EvictOldest, Consistent, IsLargest;
    if victims != [] {
      EvictOldestConsistent(s0, victims[0]);
      ReachesEnd(EvictOldest(s0, victims[0]), victims[1..], s);
    }
  }

  // ---------------------------------------------------------------- sweeping one entry at a time

  function FilterOut(q: seq<Text>, gone: set<Text>): seq<Text> {
    if q == [] then []
    else if q[0] in gone then FilterOut(q[1..], gone)
    else [q[0]] + FilterOut(q[1..], gone)
  }

  /** The state with some keys expired, in whatever order that happened. */
  function ExpiredAll(s: Store, gone: set<Text>): Store {
    s.(pseudonyms := s.pseudonyms - gone,
       forward := map a | a in s.forward && s.forward[a] !in gone :: s.forward[a],
       buckets := map p | p in s.buckets :: s.buckets[p].(lru := FilterOut(s.buckets[p].lru, gone)),
       total := s.total - |gone|,
       stats := s.stats.(expired := s.stats.expired + |gone|))
  }

  lemma {:induction false} FilterOutNone(q: seq<Text>, gone: set<Text>)
    requires forall k :: k in q ==> k !in gone
    ensures FilterOut(q, gone) == q
  {
    if q != [] {
      FilterOutNone(q[1..], gone);
      assert q == [q[0]] + q[1..];
    }
  }

  lemma WithoutCons(x: Text, r: seq<Text>, k: Text)
    ensures Without([x] + r, k) == if x == k then r else [x] + Without(r, k)
  {
    assert ([x] + r)[1..] == r;
  }

  lemma {:induction false} FilterOutOneMore(q: seq<Text>, gone: set<Text>, k: Text)
    requires NoDup(q) && k !in gone
    ensures FilterOut(q, gone + {k}) == Without(FilterOut(q, gone), k)
  {
    if q != [] {
      var t := q[1..];
      assert NoDup(t) && (q[0] == k ==> k !in t);
      FilterOutOneMore(t, gone, k);
      hide Without, NoDup;
      WithoutCons(q[0], FilterOut(t, gone), k);
      if q[0] == k {
        FilterOutSame(t, gone, k);
      }
    }
  }

  lemma {:induction false} FilterOutSame(q: seq<Text>, gone: set<Text>, k: Text)
    requires k !in q
    ensures FilterOut(q, gone + {k}) == FilterOut(q, gone)
  {
    if q != [] {
      FilterOutSame(q[1..], gone, k);
      assert q == [q[0]] + q[1..];
    }
  }

  lemma {:induction false} FilterOutIsKeepLive(m: map<Text, Entry>, q: seq<Text>, gone: set<Text>, now: int)
    requires forall k :: k in q ==> (k in gone <==> !Live(m, k, now))
    ensures FilterOut(q, gone) == KeepLive(m, q, now)
  {
    if q != [] {
      hide Live;
      assert q == [q[0]] + q[1..];
      FilterOutIsKeepLive(m, q[1..], gone, now);
    }
  }

  lemma ExpireStepBuckets(s: Store, gone: set<Text>, k: Text)
    requires Consistent(s) && k in s.pseudonyms && k !in gone
    ensures s.pseudonyms[k].partner in s.buckets
    ensures Expire(ExpiredAll(s, gone), s.pseudonyms[k]).buckets == ExpiredAll(s, gone + {k}).buckets
  {
    hide FilterOut, Without, Lists, ForwardOk;
    var e := s.pseudonyms[k];
    var x := ExpiredAll(s, gone);
    var y := ExpiredAll(s, gone + {k});
    assert e.key == k && e.partner in s.buckets;
    ListsNoDup(s);
    forall p | p in s.buckets
      ensures Expire(x, e).buckets[p] == y.buckets[p]
    {
      if p == e.partner {
        FilterOutOneMore(s.buckets[p].lru, gone, k);
      } else {
        NotListed(s, p, k);
        FilterOutSame(s.buckets[p].lru, gone, k);
      }
    }
  }

  lemma ExpireStep(s: Store, gone: set<Text>, k: Text)
    requires Consistent(s) && gone <= s.pseudonyms.Keys && k in s.pseudonyms && k !in gone
    ensures Expire(ExpiredAll(s, gone), s.pseudonyms[k]) == ExpiredAll(s, gone + {k})
  {
    hide FilterOut, Without, Lists;
    var e := s.pseudonyms[k];
    var x := ExpiredAll(s, gone);
    var y := ExpiredAll(s, gone + {k});
    ExpireStepBuckets(s, gone, k);
    assert e.key == k;
    assert Expire(x, e).pseudonyms == y.pseudonyms;
    assert Expire(x, e).forward == y.forward;
  }

  lemma ListsNoDup(s: Store)
    requires Consistent(s)
    ensures forall p :: p in s.buckets ==> NoDup(s.buckets[p].lru)
  {
  }

  lemma NotListed(s: Store, p: Text, k: Text)
    requires Consistent(s) && p in s.buckets && k in s.pseudonyms && s.pseudonyms[k].partner != p
    ensures k !in s.buckets[p].lru
  {
    assert Lists(s.pseudonyms, p, s.buckets[p].lru);
  }

  function ExpiredKeys(s: Store, now: int): set<Text> { set k | k in s.pseudonyms && !Live(s.pseudonyms, k, now) }

  lemma KeptCount(m: map<Text, Entry>, gone: set<Text>, now: int)
    requires gone == set k | k in m && !Live(m, k, now)
    ensures m - gone == Kept(m, now) && |m| == |Kept(m, now)| + |gone| && Gone(m, Kept(m, now)) == |gone|
  {
    var kept := Kept(m, now);
    assert m - gone == kept;
    assert m.Keys == kept.Keys + gone;
    assert m.Keys - kept.Keys == gone;
  }

  lemma SweptBucketsFilter(m: map<Text, Entry>, buckets: map<Text, Bucket>, gone: set<Text>, now: int)
    requires ListsOk(m, buckets) && gone == set k | k in m && !Live(m, k, now)
    ensures (map p | p in buckets :: buckets[p].(lru := FilterOut(buckets[p].lru, gone)))
            == SweptBuckets(m, buckets, now)
  {
    hide FilterOut, KeepLive;
    forall p | p in buckets
      ensures FilterOut(buckets[p].lru, gone) == KeepLive(m, buckets[p].lru, now)
    {
      assert Lists(m, p, buckets[p].lru);
      FilterOutIsKeepLive(m, buckets[p].lru, gone, now);
    }
  }

  lemma SweptForwardFilter(m: map<Text, Entry>, forward: map<Text, Text>, gone: set<Text>, now: int)
    requires ForwardOk(m, forward) && gone == set k | k in m && !Live(m, k, now)
    ensures (map a | a in forward && forward[a] !in gone :: forward[a]) == SweptForward(m, forward, now)
  {
  }

  lemma SweepIsExpiredAll(s: Store, now: int)
    requires Consistent(s)
    ensures ExpiredAll(s, ExpiredKeys(s, now)) == Sweep(s, now)
  {
    hide Kept, Gone, ListsOk, SweptBuckets, SweptForward, Live;
    var gone := ExpiredKeys(s, now);
    KeptCount(s.pseudonyms, gone, now);
    SweptBucketsFilter(s.pseudonyms, s.buckets, gone, now);
    SweptForwardFilter(s.pseudonyms, s.forward, gone, now);
  }

  function ExpiredIn(m: map<Text, Entry>, q: seq<Text>, now: int): set<Text> {
    set k | k in q && k in m && !Live(m, k, now)
  }

  lemma ExpiredInNone(m: map<Text, Entry>, now: int)
    ensures ExpiredIn(m, [], now) == {}
  {
  }

  lemma ExpiredInNext(m: map<Text, Entry>, q: seq<Text>, i: nat, now: int)
    requires NoDup(q) && i < |q| && q[i] in m
    ensures ExpiredIn(m, q[..i + 1], now) == ExpiredIn(m, q[..i], now) + if Live(m, q[i], now) then {} else {q[i]}
    ensures q[i] !in ExpiredIn(m, q[..i], now) && ExpiredIn(m, q[..i], now) <= m.Keys
  {
    assert q[..i + 1] == q[..i] + [q[i]];
  }

  lemma ExpiredInAll(s: Store, p: Text, now: int)
    requires Consistent(s) && p in s.buckets
    ensures ExpiredIn(s.pseudonyms, s.buckets[p].lru, now) == set k | k in ExpiredKeys(s, now)
            && s.pseudonyms[k].partner == p
  {
    PartnerList(s, p);
  }

  /** The list walked is the one the sweep found, as long as nothing of this partner has gone. */
  lemma WalkIsOriginal(s: Store, gone: set<Text>, p: Text)
    requires Consistent(s) && p in s.buckets && forall k :: k in gone ==>
               k in s.pseudonyms && s.pseudonyms[k].partner != p
    ensures p in ExpiredAll(s, gone).buckets && ExpiredAll(s, gone).buckets[p].lru == s.buckets[p].lru
  {
    PartnerList(s, p);
    FilterOutNone(s.buckets[p].lru, gone);
  }

  lemma WalkEntry(s: Store, gone: set<Text>, k: Text)
    requires k in s.pseudonyms && k !in gone
    ensures k in ExpiredAll(s, gone).pseudonyms && ExpiredAll(s, gone).pseudonyms[k] == s.pseudonyms[k]
  {
  }

  /** Both maps hold the new entry, its partner's list does not yet. */
  function Mapped(s: Store, e: Entry): Store {
    var r := Cleared(s, e.key);
    r.(pseudonyms := r.pseudonyms[e.key := e], forward := r.forward[e.alias := e.key])
  }

  class Memory {
    var pseudonyms: map<Text, Entry>
    var forward: map<Text, Text>
    var buckets: map<Text, Bucket>
    const maxEntries: int
    var total: int
    var stats: Stats

    function State(): Store
      reads this
    {
      Store(pseudonyms, forward, buckets, maxEntries, total, stats)
    }

    constructor (maxEntries: int)
      ensures State() == Empty(maxEntries) && Valid(State())
    {
      pseudonyms, forward, buckets := map[], map[], map[];
      this.maxEntries := maxEntries;
      total := 0;
      stats := Stats(0, 0, 0, 0);
    }

    method BucketLocked(partner: Text)
      modifies this
      ensures State() == old(State()).(buckets := old(buckets)[partner := BucketOf(old(State()), partner)])
    {
      if partner !in buckets {
        buckets := buckets[partner := Bucket([], 0)];
      } else {
        assert buckets == buckets[partner := buckets[partner]];
      }
    }

    method SetPartnerLimit(partner: Text, limit: int)
      requires Valid(State())
      modifies this
      ensures State() == PseudonymStore.SetPartnerLimit(old(State()), partner, limit) && Valid(State())
    {
      hide Valid;
      SetPartnerLimitValid(State(), partner, limit);
      BucketLocked(partner);
      buckets := buckets[partner := buckets[partner].(limit := limit)];
    }

    method RemoveLocked(e: Entry)
      modifies this
      ensures State() == Remove(old(State()), e)
    {
      if e.partner in buckets {
        buckets := buckets[e.partner := buckets[e.partner].(lru := Without(buckets[e.partner].lru, e.key))];
      }
      total := total - 1;
      if e.alias in forward && forward[e.alias] == e.key {
        forward := forward - {e.alias};
      }
      pseudonyms := pseudonyms - {e.key};
    }

    method ExpireLocked(e: Entry)
      modifies this
      ensures State() == Expire(old(State()), e)
    {
      hide Remove;
      RemoveLocked(e);
      stats := stats.(expired := stats.expired + 1);
    }

    method TouchLocked(e: Entry)
      modifies this
      ensures State() == Touch(old(State()), e)
    {
      if e.partner in buckets {
        buckets := buckets[e.partner := buckets[e.partner].(lru := Without(buckets[e.partner].lru, e.key) + [e.key])];
      }
    }

    /** Drops the least recently used entry of one partner, if there is one. */
    method EvictOldestLocked(partner: Text) returns (ok: bool)
      requires Consistent(State()) && partner in buckets
      modifies this
      ensures Consistent(State())
      ensures ok <==> old(buckets)[partner].lru != []
      ensures ok ==> old(CanEvict(State(), partner)) && State() == EvictOldest(old(State()), partner)
      ensures !ok ==> State() == old(State())
    {
      hide ListsOk, ForwardOk;
      var lru := buckets[partner].lru;
      if lru == [] {
        return false;
      }
      EvictOldestConsistent(State(), partner);
      RemoveLocked(pseudonyms[lru[0]]);
      stats := stats.(evictions := stats.evictions + 1);
      return true;
    }

    method EvictPartnerLocked(partner: Text)
      requires Consistent(State()) && partner in buckets
      modifies this
      ensures Consistent(State()) && State() == EvictPartner(old(State()), partner)
    {
      hide ListsOk, ForwardOk, EvictOldest;
      if buckets[partner].limit <= 0 {
        return;
      }
      while |buckets[partner].lru| > buckets[partner].limit
        invariant Consistent(State()) && partner in buckets
        invariant buckets[partner].limit == old(buckets)[partner].limit
        invariant EvictPartner(State(), partner) == EvictPartner(old(State()), partner)
        decreases |buckets[partner].lru|
      {
        EvictOldestConsistent(State(), partner);
        var ok := EvictOldestLocked(partner);
        if !ok {
          return;
        }
      }
    }

    /** The partner with the longest list, whatever the order of the map. */
    method Largest() returns (largest: Option<Text>)
      ensures largest == None <==> buckets == map[]
      ensures largest.Some? ==> IsLargest(State(), largest.value)
    {
      largest := None;
      var todo := buckets.Keys;
      while todo != {}
        invariant todo <= buckets.Keys
        invariant largest == None <==> todo == buckets.Keys
        invariant largest.Some? ==> largest.value in buckets
        invariant largest.Some? ==> forall p :: p in buckets && p !in todo ==>
                    |buckets[p].lru| <= |buckets[largest.value].lru|
      {
        var p :| p in todo;
        todo := todo - {p};
        if largest == None || |buckets[p].lru| > |buckets[largest.value].lru| {
          largest := Some(p);
        }
      }
    }

    /** The store-wide cap: the ghost result lists the partners it took from. */
    method EvictGlobalLocked() returns (ghost victims: seq<Text>)
      requires Consistent(State())
      modifies this
      ensures Legal(old(State()), victims) && State() == EvictGlobal(old(State()), victims)
    {
      hide ListsOk, ForwardOk, EvictOldest, EvictGlobal, Legal;
      victims := [];
      ghost var s0 := State();
      if maxEntries <= 0 {
        ReachesEnd(s0, victims, State());
        return;
      }
      while total > maxEntries
        invariant Consistent(s0) && Consistent(State()) && Reaches(s0, victims, State())
        decreases total
      {
        ghost var s := State();
        ghost var witness' := LargestExists(s);
        var largest := Largest();
        if largest == None {
          return;
        }
        EvictOldestConsistent(s, largest.value);
        ReachesNext(s0, victims, s, largest.value);
        var ok := EvictOldestLocked(largest.value);
        if !ok {
          return;
        }
        victims := victims + [largest.value];
      }
      ReachesEnd(s0, victims, State());
    }

    /** insertLocked: the new entry, already mapped, joins its partner's list, and the caps are enforced. */
    method InsertLocked(e: Entry, ghost s0: Store) returns (ghost victims: seq<Text>)
      requires Valid(s0) && State() == Mapped(s0, e)
      modifies this
      ensures Legal(Trimmed(s0, e), victims) && State() == Put(s0, e, victims) && Valid(State())
    {
      hide ListsOk, ForwardOk, EvictOldest, EvictGlobal, Legal, EvictPartner, Remove;
      BucketLocked(e.partner);
      buckets := buckets[e.partner := buckets[e.partner].(lru := buckets[e.partner].lru + [e.key])];
      total := total + 1;
      assert State() == Added(s0, e);
      AddedConsistent(s0, e);
      EvictPartnerLocked(e.partner);
      victims := EvictGlobalLocked();
      PutValid(s0, e, victims);
    }

    method PutPseudonym(partner: Text, pseudonym: Text, realHost: Text, session: Text, now: int, ttl: int)
      returns (ghost victims: seq<Text>)
      requires Valid(State())
      modifies this
      ensures var e := MakeEntry(partner, pseudonym, realHost, session, now + ttl);
              && Legal(Trimmed(old(State()), e), victims)
              && State() == Put(old(State()), e, victims) && Valid(State())
    {
      hide ListsOk, ForwardOk, Legal, Trimmed, Put, Remove;
      ghost var s0 := State();
      var key := Normalize(pseudonym);
      if key in pseudonyms {
        RemoveLocked(pseudonyms[key]);
      }
      var e := Entry(key, realHost, ForwardKey(realHost, session), partner, now + ttl);
      pseudonyms := pseudonyms[key := e];
      forward := forward[e.alias := key];
      victims := InsertLocked(e, s0);
    }

    method Pseudonym(realHost: Text, session: Text, now: int) returns (answer: Option<Text>)
      requires Valid(State())
      modifies this
      ensures (State(), answer) == FindPseudonym(old(State()), realHost, session, now) && Valid(State())
    {
      hide Remove, Touch, Consistent;
      LookupsValid(State(), realHost, session, now);
      var a := ForwardKey(realHost, session);
      if a !in forward {
        return None;
      }
      var p := forward[a];
      if p !in pseudonyms {
        return None;
      }
      var e := pseudonyms[p];
      if e.expiresAt <= now {
        ExpireLocked(e);
        return None;
      }
      TouchLocked(e);
      return Some(p);
    }

    method RealHost(pseudonym: Text, now: int) returns (answer: Option<Text>)
      requires Valid(State())
      modifies this
      ensures (State(), answer) == FindRealHost(old(State()), pseudonym, now) && Valid(State())
    {
      hide Remove, Touch, Consistent;
      LookupsValid(State(), pseudonym, [], now);
      var k := Normalize(pseudonym);
      if k !in pseudonyms {
        stats := stats.(misses := stats.misses + 1);
        return None;
      }
      var e := pseudonyms[k];
      if e.expiresAt <= now {
        ExpireLocked(e);
        stats := stats.(misses := stats.misses + 1);
        return None;
      }
      TouchLocked(e);
      stats := stats.(hits := stats.hits + 1);
      return Some(e.value);
    }

    /** One list from front to back; expired entries go as they are met. */
    method SweepBucket(p: Text, now: int, ghost s0: Store, ghost before: set<Text>) returns (ghost gone: set<Text>)
      requires Consistent(s0) && p in s0.buckets && before <= ExpiredKeys(s0, now)
      requires State() == ExpiredAll(s0, before)
      requires forall k :: k in before ==> k in s0.pseudonyms && s0.pseudonyms[k].partner != p
      modifies this
      ensures gone == before + set k | k in ExpiredKeys(s0, now) && s0.pseudonyms[k].partner == p
      ensures State() == ExpiredAll(s0, gone)
    {
      hide FilterOut, ExpiredAll, ExpiredIn, Consistent;
      gone := before;
      PartnerList(s0, p);
      WalkIsOriginal(s0, gone, p);
      var walk := buckets[p].lru;
      assert walk == s0.buckets[p].lru;
      ExpiredInNone(s0.pseudonyms, now);
      for i := 0 to |walk|
        invariant gone == before + ExpiredIn(s0.pseudonyms, walk[..i], now)
        invariant State() == ExpiredAll(s0, gone)
      {
        var k := walk[i];
        ExpiredInNext(s0.pseudonyms, walk, i, now);
        WalkEntry(s0, gone, k);
        var e := pseudonyms[k];
        if e.expiresAt <= now {
          ExpireStep(s0, gone, k);
          ExpireLocked(e);
          gone := gone + {k};
        }
      }
      assert walk[..|walk|] == walk;
      ExpiredInAll(s0, p, now);
    }

    /** Every partner's list in turn, in whatever order the map gives. */
    method Sweep(now: int)
      requires Valid(State())
      modifies this
      ensures State() == PseudonymStore.Sweep(old(State()), now)
    {
      hide Consistent, ExpiredAll, PseudonymStore.Sweep;
      ghost var s0 := State();
      ghost var gone: set<Text> := {};
      var todo := buckets.Keys;
      ExpiredNone(s0);
      ActiveBuckets(s0);
      while todo != {}
        invariant todo <= s0.buckets.Keys && gone <= ExpiredKeys(s0, now)
        invariant State() == ExpiredAll(s0, gone)
        invariant gone == set k | k in ExpiredKeys(s0, now) && s0.pseudonyms[k].partner !in todo
      {
        var p :| p in todo;
        gone := SweepBucket(p, now, s0, gone);
        todo := todo - {p};
      }
      assert gone == ExpiredKeys(s0, now);
      SweepIsExpiredAll(s0, now);
    }
  }

  lemma ExpiredNone(s: Store)
    ensures ExpiredAll(s, {}) == s
  {
    forall p | p in s.buckets
      ensures FilterOut(s.buckets[p].lru, {}) == s.buckets[p].lru
    {
      FilterOutNone(s.buckets[p].lru, {});
    }
    assert s.pseudonyms - {} == s.pseudonyms;
    assert (map p | p in s.buckets :: s.buckets[p].(lru := FilterOut(s.buckets[p].lru, {}))) == s.buckets;
    assert (map a | a in s.forward && s.forward[a] !in {} :: s.forward[a]) == s.forward;
  }

  lemma PartnerList(s: Store, p: Text)
    requires Consistent(s) && p in s.buckets
    ensures NoDup(s.buckets[p].lru)
    ensures forall k :: k in s.buckets[p].lru <==> k in s.pseudonyms && s.pseudonyms[k].partner == p
    ensures forall i, j :: 0 <= i < j < |s.buckets[p].lru| ==> s.buckets[p].lru[i] != s.buckets[p].lru[j]
  {
    assert Lists(s.pseudonyms, p, s.buckets[p].lru);
  }

  lemma ActiveBuckets(s: Store)
    requires Consistent(s)
    ensures forall k :: k in s.pseudonyms ==> s.pseudonyms[k].partner in s.buckets
  {
  }
}
