/**
 * The in-memory pseudonym store of topology hiding: pseudonym and forward maps, one LRU list
 * per partner, a cap per partner, a store-wide cap and expiry. Times are numbers passed in;
 * the order in which Go walks a map is the oracle `victims`.
 */
module PseudonymStore {
  import opened Bytes
  import opened Names
  import opened Sums

  datatype Entry = Entry(key: Text, value: Text, alias: Text, partner: Text, expiresAt: int)

  /** One partner's keys, least recently used first, and its cap (none when not positive). */
  datatype Bucket = Bucket(lru: seq<Text>, limit: int)

  datatype Stats = Stats(hits: nat, misses: nat, evictions: nat, expired: nat)

  datatype Store = Store(
    pseudonyms: map<Text, Entry>,
    forward: map<Text, Text>,
    buckets: map<Text, Bucket>,
    maxEntries: int,
    total: int,
    stats: Stats)

  function Empty(maxEntries: int): Store {
    Store(map[], map[], map[], maxEntries, 0, Stats(0, 0, 0, 0))
  }

  // ---------------------------------------------------------------- operations

  function Without(q: seq<Text>, k: Text): seq<Text> {
    if q == [] then [] else if q[0] == k then q[1..] else [q[0]] + Without(q[1..], k)
  }

  function BucketOf(s: Store, partner: Text): Bucket {
    if partner in s.buckets then s.buckets[partner] else Bucket([], 0)
  }

  function SetPartnerLimit(s: Store, partner: Text, limit: int): Store {
    s.(buckets := s.buckets[partner := BucketOf(s, partner).(limit := limit)])
  }

  function Detach(s: Store, e: Entry): Store {
    s.(buckets := if e.partner in s.buckets
                  then s.buckets[e.partner := s.buckets[e.partner].(lru := Without(s.buckets[e.partner].lru, e.key))]
                  else s.buckets,
       total := s.total - 1)
  }

  function Remove(s: Store, e: Entry): Store {
    var d := Detach(s, e);
    d.(forward := if e.alias in d.forward && d.forward[e.alias] == e.key then d.forward - {e.alias} else d.forward,
       pseudonyms := d.pseudonyms - {e.key})
  }

  function Touch(s: Store, e: Entry): Store {
    if e.partner in s.buckets then
      s.(buckets := s.buckets[e.partner :=
           s.buckets[e.partner].(lru := Without(s.buckets[e.partner].lru, e.key) + [e.key])])
    else s
  }

  predicate CanEvict(s: Store, partner: Text) {
    partner in s.buckets && s.buckets[partner].lru != [] && s.buckets[partner].lru[0] in s.pseudonyms
  }

  function EvictOldest(s: Store, partner: Text): Store
    requires CanEvict(s, partner)
  {
    var r := Remove(s, s.pseudonyms[s.buckets[partner].lru[0]]);
    r.(stats := r.stats.(evictions := r.stats.evictions + 1))
  }

  function LenOf(s: Store, partner: Text): nat { |BucketOf(s, partner).lru| }

  function EvictPartner(s: Store, partner: Text): Store
    requires Consistent(s)
    decreases LenOf(s, partner)
  {
    var b := BucketOf(s, partner);
    if b.limit <= 0 || |b.lru| <= b.limit then s
    else
      EvictOldestConsistent(s, partner);
      EvictPartner(EvictOldest(s, partner), partner)
  }

  predicate IsLargest(s: Store, partner: Text) {
    partner in s.buckets && forall p :: p in s.buckets ==> |s.buckets[p].lru| <= |s.buckets[partner].lru|
  }

  /** Is `victims` a sequence of choices the store-wide eviction loop can make? */
  predicate Legal(s: Store, victims: seq<Text>)
    requires Consistent(s)
    decreases |victims|
  {
    if s.maxEntries <= 0 || s.total <= s.maxEntries then victims == []
    else
      && victims != [] && IsLargest(s, victims[0]) && CanEvict(s, victims[0])
      && (EvictOldestConsistent(s, victims[0]);
          Legal(EvictOldest(s, victims[0]), victims[1..]))
  }

  function EvictGlobal(s: Store, victims: seq<Text>): Store
    requires Consistent(s) && Legal(s, victims)
    decreases |victims|
  {
    if victims == [] then s
    else
      EvictOldestConsistent(s, victims[0]);
      EvictGlobal(EvictOldest(s, victims[0]), victims[1..])
  }

  function ForwardKey(realHost: Text, session: Text): Text { Normalize(realHost) + [BAR] + session }

  /** PutPseudonym up to the eviction passes: the old mapping of the key goes, the new one is appended. */
  function Added(s: Store, e: Entry): Store {
    var r := Cleared(s, e.key);
    var b := BucketOf(r, e.partner);
    r.(pseudonyms := r.pseudonyms[e.key := e],
       forward := r.forward[e.alias := e.key],
       buckets := r.buckets[e.partner := b.(lru := b.lru + [e.key])],
       total := r.total + 1)
  }

  function Trimmed(s: Store, e: Entry): (r: Store)
    requires Consistent(s)
    ensures Consistent(r)
  {
    AddedConsistent(s, e);
    EvictPartnerConsistent(Added(s, e), e.partner);
    EvictPartner(Added(s, e), e.partner)
  }

  function Put(s: Store, e: Entry, victims: seq<Text>): Store
    requires Consistent(s) && Legal(Trimmed(s, e), victims)
  {
    EvictGlobal(Trimmed(s, e), victims)
  }

  function MakeEntry(partner: Text, pseudonym: Text, realHost: Text, session: Text, expiresAt: int): Entry {
    Entry(Normalize(pseudonym), realHost, ForwardKey(realHost, session), partner, expiresAt)
  }

  function Expire(s: Store, e: Entry): Store {
    var r := Remove(s, e);
    r.(stats := r.stats.(expired := r.stats.expired + 1))
  }

  /** Pseudonym: the live pseudonym of a host in a session. */
  function FindPseudonym(s: Store, realHost: Text, session: Text, now: int): (Store, Option<Text>) {
    var a := ForwardKey(realHost, session);
    if a !in s.forward then (s, None)
    else if s.forward[a] !in s.pseudonyms then (s, None)
    else
      var e := s.pseudonyms[s.forward[a]];
      if e.expiresAt <= now then (Expire(s, e), None) else (Touch(s, e), Some(s.forward[a]))
  }

  /** RealHost: the live host behind a pseudonym. */
  function FindRealHost(s: Store, pseudonym: Text, now: int): (Store, Option<Text>) {
    var k := Normalize(pseudonym);
    if k !in s.pseudonyms then (s.(stats := s.stats.(misses := s.stats.misses + 1)), None)
    else
      var e := s.pseudonyms[k];
      if e.expiresAt <= now then
        var r := Expire(s, e);
        (r.(stats := r.stats.(misses := r.stats.misses + 1)), None)
      else
        var r := Touch(s, e);
        (r.(stats := r.stats.(hits := r.stats.hits + 1)), Some(e.value))
  }

  predicate Live(m: map<Text, Entry>, k: Text, now: int) { k in m && m[k].expiresAt > now }

  function KeepLive(m: map<Text, Entry>, q: seq<Text>, now: int): seq<Text> {
    if q == [] then []
    else (if Live(m, q[0], now) then [q[0]] else []) + KeepLive(m, q[1..], now)
  }

  function Kept(m: map<Text, Entry>, now: int): map<Text, Entry> { map k | k in m && Live(m, k, now) :: m[k] }

  function SweptBuckets(m: map<Text, Entry>, buckets: map<Text, Bucket>, now: int): map<Text, Bucket> {
    map p | p in buckets :: buckets[p].(lru := KeepLive(m, buckets[p].lru, now))
  }

  function SweptForward(m: map<Text, Entry>, forward: map<Text, Text>, now: int): map<Text, Text> {
    map a | a in forward && Live(m, forward[a], now) :: forward[a]
  }

  /** sweep: every expired entry leaves all indexes; what is left keeps its order. */
  function Sweep(s: Store, now: int): Store {
    var kept := Kept(s.pseudonyms, now);
    s.(pseudonyms := kept,
       forward := SweptForward(s.pseudonyms, s.forward, now),
       buckets := SweptBuckets(s.pseudonyms, s.buckets, now),
       total := |kept|,
       stats := s.stats.(expired := s.stats.expired + Gone(s.pseudonyms, kept)))
  }

  function Gone(m: map<Text, Entry>, kept: map<Text, Entry>): nat { |m.Keys - kept.Keys| }

  // ---------------------------------------------------------------- consistency

  predicate NoDup(q: seq<Text>) { forall i, j :: 0 <= i < j < |q| ==> q[i] != q[j] }

  /** A partner's list holds exactly that partner's keys, each once. */
  predicate Lists(m: map<Text, Entry>, p: Text, lru: seq<Text>) {
    && NoDup(lru)
    && (forall k :: k in lru ==> k in m && m[k].partner == p)
    && (forall k :: k in m && m[k].partner == p ==> k in lru)
  }

  predicate ListsOk(m: map<Text, Entry>, buckets: map<Text, Bucket>) {
    && (forall p :: p in buckets ==> Lists(m, p, buckets[p].lru))
    && (forall k :: k in m ==> m[k].key == k && m[k].partner in buckets)
  }

  predicate ForwardOk(m: map<Text, Entry>, forward: map<Text, Text>) {
    forall a :: a in forward ==> forward[a] in m && m[forward[a]].alias == a
  }

  /** The maps, the lists and the counter describe the same entries. */
  predicate Consistent(s: Store) {
    ListsOk(s.pseudonyms, s.buckets) && ForwardOk(s.pseudonyms, s.forward) && s.total == |s.pseudonyms|
  }

  predicate WithinCap(s: Store) { s.maxEntries > 0 ==> s.total <= s.maxEntries }

  predicate Valid(s: Store) { Consistent(s) && WithinCap(s) }

  lemma {:induction false} WithoutSpec(q: seq<Text>, k: Text)
    requires NoDup(q)
    ensures NoDup(Without(q, k))
    ensures forall x :: x in Without(q, k) <==> x in q && x != k
    ensures |Without(q, k)| == |q| - if k in q then 1 else 0
  {
    if q != [] {
      var t := q[1..];
      WithoutSpec(t, k);
      assert q == [q[0]] + t;
      if q[0] != k {
        var w := Without(t, k);
        assert q[0] !in t;
        assert Without(q, k) == [q[0]] + w;
      }
    }
  }

  lemma WithoutFirst(q: seq<Text>)
    requires q != []
    ensures Without(q, q[0]) == q[1..]
  {
  }

  lemma ListsAfterRemove(m: map<Text, Entry>, p: Text, lru: seq<Text>, k: Text)
    requires Lists(m, p, lru) && k in m
    ensures m[k].partner == p ==> Lists(m - {k}, p, Without(lru, k)) && |Without(lru, k)| == |lru| - 1
    ensures m[k].partner != p ==> Lists(m - {k}, p, lru)
  {
    WithoutSpec(lru, k);
  }

  lemma ListsAfterAdd(m: map<Text, Entry>, p: Text, lru: seq<Text>, e: Entry)
    requires Lists(m, p, lru) && e.key !in m
    ensures e.partner == p ==> Lists(m[e.key := e], p, lru + [e.key])
    ensures e.partner != p ==> Lists(m[e.key := e], p, lru)
  {
    assert e.key !in lru;
  }

  lemma ListsOkAfterRemove(m: map<Text, Entry>, buckets: map<Text, Bucket>, k: Text)
    requires ListsOk(m, buckets) && k in m
    ensures var p := m[k].partner;
            && p in buckets
            && ListsOk(m - {k}, buckets[p := buckets[p].(lru := Without(buckets[p].lru, k))])
            && |Without(buckets[p].lru, k)| == |buckets[p].lru| - 1
  {
    hide Lists, Without;
    var p := m[k].partner;
    var after := buckets[p := buckets[p].(lru := Without(buckets[p].lru, k))];
    forall q | q in after
      ensures Lists(m - {k}, q, after[q].lru)
    {
      ListsAfterRemove(m, q, buckets[q].lru, k);
    }
    ListsAfterRemove(m, p, buckets[p].lru, k);
  }

  lemma ForwardOkAfterRemove(m: map<Text, Entry>, forward: map<Text, Text>, k: Text)
    requires ForwardOk(m, forward) && k in m
    ensures var a := m[k].alias;
            ForwardOk(m - {k}, if a in forward && forward[a] == k then forward - {a} else forward)
  {
  }

  lemma RemoveConsistent(s: Store, k: Text)
    requires Consistent(s) && k in s.pseudonyms
    ensures var e := s.pseudonyms[k];
            var r := Remove(s, e);
            && e.partner in s.buckets
            && Consistent(r) && r.total == s.total - 1 && r.pseudonyms == s.pseudonyms - {k}
            && r.buckets == s.buckets[e.partner := s.buckets[e.partner].(lru := Without(s.buckets[e.partner].lru, k))]
            && |r.buckets[e.partner].lru| == |s.buckets[e.partner].lru| - 1
            && r.maxEntries == s.maxEntries
  {
    hide Lists, Without, ForwardOk;
    assert s.pseudonyms[k].key == k;
    ListsOkAfterRemove(s.pseudonyms, s.buckets, k);
    ForwardOkAfterRemove(s.pseudonyms, s.forward, k);
  }

  lemma EvictOldestConsistent(s: Store, partner: Text)
    requires Consistent(s) && partner in s.buckets && s.buckets[partner].lru != []
    ensures CanEvict(s, partner)
    ensures var r := EvictOldest(s, partner);
            var k := s.buckets[partner].lru[0];
            && Consistent(r) && r.total == s.total - 1 && r.pseudonyms == s.pseudonyms - {k}
            && r.buckets == s.buckets[partner := s.buckets[partner].(lru := s.buckets[partner].lru[1..])]
            && r.maxEntries == s.maxEntries
  {
    hide Without, Remove, ForwardOk;
    var k := s.buckets[partner].lru[0];
    assert Lists(s.pseudonyms, partner, s.buckets[partner].lru);
    assert k in s.buckets[partner].lru;
    assert s.pseudonyms[k].partner == partner;
    hide ListsOk, Lists;
    RemoveConsistent(s, k);
    WithoutFirst(s.buckets[partner].lru);
  }

  lemma NothingListed(m: map<Text, Entry>, buckets: map<Text, Bucket>, p: Text)
    requires ListsOk(m, buckets) && p !in buckets
    ensures Lists(m, p, [])
  {
  }

  /** The store the new entry is appended to: without the mapping the key had before. */
  function Cleared(s: Store, key: Text): Store {
    if key in s.pseudonyms then Remove(s, s.pseudonyms[key]) else s
  }

  lemma ClearedConsistent(s: Store, key: Text)
    requires Consistent(s)
    ensures Consistent(Cleared(s, key)) && Cleared(s, key).pseudonyms == s.pseudonyms - {key}
    ensures Cleared(s, key).maxEntries == s.maxEntries
  {
    if key in s.pseudonyms {
      RemoveConsistent(s, key);
    }
  }

  lemma ListsOkAfterAdd(m: map<Text, Entry>, buckets: map<Text, Bucket>, e: Entry, b: Bucket)
    requires ListsOk(m, buckets) && e.key !in m
    requires if e.partner in buckets then b == buckets[e.partner] else b.lru == []
    ensures ListsOk(m[e.key := e], buckets[e.partner := b.(lru := b.lru + [e.key])])
  {
    hide Lists;
    var after := buckets[e.partner := b.(lru := b.lru + [e.key])];
    if e.partner !in buckets {
      NothingListed(m, buckets, e.partner);
    }
    forall q | q in after
      ensures Lists(m[e.key := e], q, after[q].lru)
    {
      ListsAfterAdd(m, q, if q == e.partner then b.lru else buckets[q].lru, e);
    }
  }

  lemma ForwardOkAfterAdd(m: map<Text, Entry>, forward: map<Text, Text>, e: Entry)
    requires ForwardOk(m, forward) && e.key !in m
    ensures ForwardOk(m[e.key := e], forward[e.alias := e.key])
  {
  }

  lemma Reinserted(m: map<Text, Entry>, e: Entry)
    ensures (m - {e.key})[e.key := e] == m[e.key := e]
    ensures e.key !in m ==> |m[e.key := e]| == |m| + 1
  {
    assert m[e.key := e].Keys == m.Keys + {e.key};
  }

  lemma AddedConsistent(s: Store, e: Entry)
    requires Consistent(s)
    ensures Consistent(Added(s, e)) && Added(s, e).maxEntries == s.maxEntries
    ensures Added(s, e).pseudonyms == s.pseudonyms[e.key := e]
  {
    hide ListsOk, ForwardOk, Cleared;
    ClearedConsistent(s, e.key);
    var r := Cleared(s, e.key);
    ForwardOkAfterAdd(r.pseudonyms, r.forward, e);
    ListsOkAfterAdd(r.pseudonyms, r.buckets, e, BucketOf(r, e.partner));
    Reinserted(s.pseudonyms, e);
    Reinserted(r.pseudonyms, e);
  }

  lemma {:induction false} EvictPartnerConsistent(s: Store, partner: Text)
    requires Consistent(s)
    ensures Consistent(EvictPartner(s, partner)) && EvictPartner(s, partner).maxEntries == s.maxEntries
    decreases LenOf(s, partner)
  {
    var b := BucketOf(s, partner);
    if 0 < b.limit < |b.lru| {
      EvictOldestConsistent(s, partner);
      EvictPartnerConsistent(EvictOldest(s, partner), partner);
    }
  }

  // ---------------------------------------------------------------- the counter is the sum of the lists

  function Lens(s: Store): Text -> int { (p: Text) => LenOf(s, p) }

  function KeysIn(m: map<Text, Entry>, ps: set<Text>): set<Text> { set k | k in m && m[k].partner in ps }

  lemma {:induction false} NoDupCount(q: seq<Text>, ks: set<Text>)
    requires NoDup(q) && forall k :: k in q <==> k in ks
    ensures |ks| == |q|
  {
    if q == [] {
      assert ks == {};
    } else {
      NoDupCount(q[1..], ks - {q[0]});
      assert |ks| == |ks - {q[0]}| + 1;
    }
  }

  lemma KeysSplit(m: map<Text, Entry>, ps: set<Text>, p: Text)
    requires p in ps
    ensures |KeysIn(m, ps)| == |KeysIn(m, ps - {p})| + |KeysIn(m, {p})|
  {
    assert KeysIn(m, ps) == KeysIn(m, ps - {p}) + KeysIn(m, {p});
    assert KeysIn(m, ps - {p}) !! KeysIn(m, {p});
  }

  lemma OneList(s: Store, p: Text)
    requires Consistent(s) && p in s.buckets
    ensures |KeysIn(s.pseudonyms, {p})| == LenOf(s, p)
  {
    assert Lists(s.pseudonyms, p, s.buckets[p].lru);
    NoDupCount(s.buckets[p].lru, KeysIn(s.pseudonyms, {p}));
  }

  lemma {:induction false} ListsCount(s: Store, ps: set<Text>)
    requires Consistent(s) && ps <= s.buckets.Keys
    ensures |KeysIn(s.pseudonyms, ps)| == Sum(Lens(s), ps)
    decreases |ps|
  {
    hide ForwardOk, ListsOk;
    if ps == {} {
      assert KeysIn(s.pseudonyms, ps) == {};
    } else {
      var p :| p in ps;
      SumPick(Lens(s), ps, p);
      ListsCount(s, ps - {p});
      KeysSplit(s.pseudonyms, ps, p);
      OneList(s, p);
    }
  }

  /** The running counter is the sum of the lengths of the partner lists. */
  lemma TotalIsSum(s: Store)
    requires Consistent(s)
    ensures s.total == Sum(Lens(s), s.buckets.Keys)
  {
    ListsCount(s, s.buckets.Keys);
    assert KeysIn(s.pseudonyms, s.buckets.Keys) == s.pseudonyms.Keys;
  }

  // ---------------------------------------------------------------- every operation keeps the store valid

  lemma {:induction false} EvictGlobalValid(s: Store, victims: seq<Text>)
    requires Consistent(s) && Legal(s, victims)
    ensures Valid(EvictGlobal(s, victims)) && EvictGlobal(s, victims).maxEntries == s.maxEntries
    ensures EvictGlobal(s, victims).pseudonyms.Keys <= s.pseudonyms.Keys
    ensures forall k :: k in EvictGlobal(s, victims).pseudonyms ==>
              EvictGlobal(s, victims).pseudonyms[k] == s.pseudonyms[k]
    decreases |victims|
  {
    hide EvictOldest, ListsOk, ForwardOk;
    if victims != [] {
      EvictOldestConsistent(s, victims[0]);
      EvictGlobalValid(EvictOldest(s, victims[0]), victims[1..]);
    }
  }

  lemma SetPartnerLimitValid(s: Store, partner: Text, limit: int)
    requires Valid(s)
    ensures Valid(SetPartnerLimit(s, partner, limit))
  {
    hide Lists;
    if partner !in s.buckets {
      NothingListed(s.pseudonyms, s.buckets, partner);
    }
  }

  /** Whatever the map order, storing a pseudonym keeps every index consistent and the cap respected. */
  lemma PutValid(s: Store, e: Entry, victims: seq<Text>)
    requires Valid(s) && Legal(Trimmed(s, e), victims)
    ensures Valid(Put(s, e, victims))
  {
    EvictGlobalValid(Trimmed(s, e), victims);
  }

  lemma TouchConsistent(s: Store, k: Text)
    requires Consistent(s) && k in s.pseudonyms
    ensures var r := Touch(s, s.pseudonyms[k]);
            && Consistent(r) && r.total == s.total && r.maxEntries == s.maxEntries
            && r.pseudonyms == s.pseudonyms && r.forward == s.forward
  {
    var e := s.pseudonyms[k];
    MovedLists(s.pseudonyms, e.partner, s.buckets[e.partner].lru, k);
    hide Without, Lists, ForwardOk;
  }

  /** Moving a key to the end of its list leaves the list as good as before. */
  lemma MovedLists(m: map<Text, Entry>, p: Text, lru: seq<Text>, k: Text)
    requires Lists(m, p, lru) && k in m && m[k].partner == p
    ensures Lists(m, p, Without(lru, k) + [k])
  {
    hide Without;
    WithoutSpec(lru, k);
  }

  lemma LookupsValid(s: Store, name: Text, session: Text, now: int)
    requires Valid(s)
    ensures Valid(FindPseudonym(s, name, session, now).0) && Valid(FindRealHost(s, name, now).0)
  {
    hide ListsOk, Remove, Touch;
    var a := ForwardKey(name, session);
    if a in s.forward {
      RemoveConsistent(s, s.forward[a]);
      TouchConsistent(s, s.forward[a]);
    }
    var k := Normalize(name);
    if k in s.pseudonyms {
      RemoveConsistent(s, k);
      TouchConsistent(s, k);
    }
  }

  // ---------------------------------------------------------------- the newest mapping survives

  /** The entry is stored and is the most recently used one of its partner. */
  predicate Newest(s: Store, e: Entry) {
    && e.key in s.pseudonyms && s.pseudonyms[e.key] == e && e.partner in s.buckets
    && var lru := s.buckets[e.partner].lru; lru != [] && lru[|lru| - 1] == e.key
  }

  lemma AddedNewest(s: Store, e: Entry)
    requires Consistent(s)
    ensures Newest(Added(s, e), e)
  {
    hide ListsOk, ForwardOk, Remove;
    AddedConsistent(s, e);
  }

  lemma OldestIsNotNewest(s: Store, partner: Text, e: Entry)
    requires Consistent(s) && Newest(s, e) && partner in s.buckets && |s.buckets[partner].lru| >= 2
    ensures s.buckets[partner].lru[0] != e.key
  {
    var lru := s.buckets[partner].lru;
    assert Lists(s.pseudonyms, partner, lru);
    assert lru[0] in lru;
    assert lru[0] != lru[|lru| - 1];
  }

  lemma EvictOldestNewest(s: Store, partner: Text, e: Entry)
    requires Consistent(s) && Newest(s, e) && partner in s.buckets && |s.buckets[partner].lru| >= 2
    ensures CanEvict(s, partner) && Newest(EvictOldest(s, partner), e)
  {
    hide EvictOldest, ForwardOk, ListsOk;
    OldestIsNotNewest(s, partner, e);
    EvictOldestConsistent(s, partner);
  }

  lemma {:induction false} EvictPartnerNewest(s: Store, partner: Text, e: Entry)
    requires Consistent(s) && Newest(s, e)
    ensures Newest(EvictPartner(s, partner), e)
    decreases LenOf(s, partner)
  {
    hide EvictOldest, ListsOk, Newest;
    var b := BucketOf(s, partner);
    if 0 < b.limit < |b.lru| {
      EvictOldestConsistent(s, partner);
      EvictOldestNewest(s, partner, e);
      EvictPartnerNewest(EvictOldest(s, partner), partner, e);
    }
  }

  lemma TrimmedNewest(s: Store, e: Entry)
    requires Consistent(s)
    ensures Newest(Trimmed(s, e), e)
  {
    AddedConsistent(s, e);
    AddedNewest(s, e);
    EvictPartnerNewest(Added(s, e), e.partner, e);
  }

  /** The partners that hold entries. */
  function Holders(s: Store): set<Text> { set p | p in s.buckets && s.buckets[p].lru != [] }

  /** More entries than holders: by the pigeonhole principle some partner, hence the largest, holds two. */
  lemma Pigeonhole(s: Store, partner: Text)
    requires Consistent(s) && IsLargest(s, partner) && s.total > |Holders(s)|
    ensures |s.buckets[partner].lru| >= 2
  {
    TotalIsSum(s);
    var one := (p: Text) => if p in Holders(s) then 1 else 0;
    SumCounts(one, s.buckets.Keys, Holders(s));
    if |s.buckets[partner].lru| < 2 {
      SumMonotone(Lens(s), one, s.buckets.Keys);
    }
  }

  lemma HoldersHold(s: Store)
    requires Consistent(s)
    ensures |Holders(s)| <= s.total
  {
    TotalIsSum(s);
    var one := (p: Text) => if p in Holders(s) then 1 else 0;
    SumCounts(one, s.buckets.Keys, Holders(s));
    SumMonotone(one, Lens(s), s.buckets.Keys);
  }

  lemma {:induction false} GlobalNewest(s: Store, e: Entry, victims: seq<Text>)
    requires Consistent(s) && Newest(s, e) && Legal(s, victims)
    requires s.maxEntries <= 0 || |Holders(s)| <= s.maxEntries
    ensures Newest(EvictGlobal(s, victims), e)
    decreases |victims|
  {
    hide EvictOldest, ListsOk, ForwardOk, Newest;
    if victims != [] {
      var v := victims[0];
      Pigeonhole(s, v);
      EvictOldestConsistent(s, v);
      EvictOldestNewest(s, v, e);
      assert Holders(EvictOldest(s, v)) == Holders(s);
      GlobalNewest(EvictOldest(s, v), e, victims[1..]);
    }
  }

  lemma EvictOldestHolders(s: Store, v: Text)
    requires Consistent(s) && v in s.buckets && |s.buckets[v].lru| >= 2
    ensures CanEvict(s, v) && Holders(EvictOldest(s, v)) == Holders(s)
  {
    hide EvictOldest, ListsOk, ForwardOk;
    EvictOldestConsistent(s, v);
  }

  /** The loop can always go on: a store above its cap has a largest partner with something to evict. */
  lemma LegalExists(s: Store) returns (victims: seq<Text>)
    requires Consistent(s)
    ensures Legal(s, victims)
    decreases s.total
  {
    hide EvictOldest, ListsOk, ForwardOk;
    if s.maxEntries <= 0 || s.total <= s.maxEntries {
      victims := [];
    } else {
      var v := LargestExists(s);
      EvictOldestConsistent(s, v);
      var rest := LegalExists(EvictOldest(s, v));
      victims := [v] + rest;
      assert victims[1..] == rest;
    }
  }

  lemma LargestExists(s: Store) returns (v: Text)
    requires Consistent(s) && s.total > 0
    ensures IsLargest(s, v) && s.buckets[v].lru != []
  {
    var k :| k in s.pseudonyms;
    var p := s.pseudonyms[k].partner;
    assert Lists(s.pseudonyms, p, s.buckets[p].lru);
    v := LargestOf(s, s.buckets.Keys, p);
  }

  lemma LargestOf(s: Store, ps: set<Text>, p: Text) returns (v: Text)
    requires p in ps && ps <= s.buckets.Keys
    ensures v in ps && forall q :: q in ps ==> |s.buckets[q].lru| <= |s.buckets[v].lru|
    decreases |ps|
  {
    if ps - {p} == {} {
      assert ps == {p};
      v := p;
    } else {
      var q :| q in ps - {p};
      v := LargestOf(s, ps - {q}, p);
      if |s.buckets[q].lru| > |s.buckets[v].lru| {
        v := q;
      }
    }
  }

  /** With more holders than the cap, some order of map iteration evicts the entry just stored. */
  lemma NewestCanGo(s: Store, e: Entry) returns (victims: seq<Text>)
    requires Consistent(s) && Newest(s, e) && 0 < s.maxEntries < |Holders(s)|
    ensures Legal(s, victims) && e.key !in EvictGlobal(s, victims).pseudonyms
    decreases s.total
  {
    hide EvictOldest, ListsOk, ForwardOk;
    HoldersHold(s);
    var v := LargestExists(s);
    var rest;
    if |s.buckets[v].lru| >= 2 {
      EvictOldestConsistent(s, v);
      EvictOldestNewest(s, v, e);
      EvictOldestHolders(s, v);
      rest := NewestCanGo(EvictOldest(s, v), e);
    } else {
      v := e.partner;
      EvictOldestConsistent(s, v);
      rest := LegalExists(EvictOldest(s, v));
      EvictGlobalValid(EvictOldest(s, v), rest);
    }
    victims := [v] + rest;
    assert victims[1..] == rest;
  }

  /**
   * A mapping just stored survives its own eviction pass, whatever the map order, exactly when
   * the store-wide cap is off or is at least the number of partners holding entries.
   */
  lemma SurvivesExactly(s: Store, e: Entry)
    requires Valid(s)
    ensures (forall victims :: Legal(Trimmed(s, e), victims) ==>
               e.key in Put(s, e, victims).pseudonyms && Put(s, e, victims).pseudonyms[e.key] == e)
            <==> (s.maxEntries <= 0 || |Holders(Trimmed(s, e))| <= s.maxEntries)
  {
    hide Legal, EvictGlobal, ListsOk, ForwardOk;
    var t := Trimmed(s, e);
    TrimmedNewest(s, e);
    AddedConsistent(s, e);
    EvictPartnerConsistent(Added(s, e), e.partner);
    if s.maxEntries <= 0 || |Holders(t)| <= s.maxEntries {
      forall victims | Legal(t, victims)
        ensures e.key in Put(s, e, victims).pseudonyms && Put(s, e, victims).pseudonyms[e.key] == e
      {
        GlobalNewest(t, e, victims);
      }
    } else {
      var victims := NewestCanGo(t, e);
      assert e.key !in Put(s, e, victims).pseudonyms;
    }
  }

  lemma {:induction false} EvictPartnerLeavesOthers(s: Store, partner: Text)
    requires Consistent(s)
    ensures EvictPartner(s, partner).buckets.Keys == s.buckets.Keys
    ensures forall p :: p in s.buckets && p != partner ==> EvictPartner(s, partner).buckets[p] == s.buckets[p]
    decreases LenOf(s, partner)
  {
    hide EvictOldest, ListsOk, ForwardOk;
    var b := BucketOf(s, partner);
    if 0 < b.limit < |b.lru| {
      EvictOldestConsistent(s, partner);
      EvictPartnerLeavesOthers(EvictOldest(s, partner), partner);
    }
  }

  /** A fresh insertion adds its partner to those that hold entries, and takes nobody from them. */
  lemma HoldersAfterFresh(s: Store, e: Entry)
    requires Consistent(s) && e.key !in s.pseudonyms
    ensures Holders(Trimmed(s, e)) == Holders(s) + {e.partner}
  {
    hide ListsOk, ForwardOk, EvictPartner;
    var a := Added(s, e);
    AddedConsistent(s, e);
    EvictPartnerLeavesOthers(a, e.partner);
    TrimmedNewest(s, e);
    assert a.buckets.Keys == s.buckets.Keys + {e.partner};
    assert forall p :: p in s.buckets && p != e.partner ==> a.buckets[p] == s.buckets[p];
    hide Added;
    forall p
      ensures p in Holders(Trimmed(s, e)) <==> p in Holders(s) + {e.partner}
    {
      assert p in Trimmed(s, e).buckets <==> p in s.buckets.Keys + {e.partner};
    }
  }

  /** For a fresh key the condition can be read off the store before the call. */
  lemma FreshSurvivesExactly(s: Store, e: Entry)
    requires Valid(s) && e.key !in s.pseudonyms
    ensures (forall victims :: Legal(Trimmed(s, e), victims) ==>
               e.key in Put(s, e, victims).pseudonyms && Put(s, e, victims).pseudonyms[e.key] == e)
            <==> (s.maxEntries <= 0 || |Holders(s) + {e.partner}| <= s.maxEntries)
  {
    hide Consistent, Legal, Trimmed, Put, Holders;
    SurvivesExactly(s, e);
    HoldersAfterFresh(s, e);
  }

  // ---------------------------------------------------------------- partners do not disturb each other

  function Limits(s: Store): Text -> int { (p: Text) => BucketOf(s, p).limit }

  /**
   * The partners in `active` are the only ones that store anything; each keeps within its own
   * positive cap, and the store-wide cap, when there is one, is at least the sum of those caps.
   */
  ghost predicate Isolated(s: Store, active: set<Text>) {
    && active <= s.buckets.Keys
    && (forall p :: p in s.buckets && p !in active ==> s.buckets[p].lru == [])
    && (forall p :: p in active ==> 0 < s.buckets[p].limit && |s.buckets[p].lru| <= s.buckets[p].limit)
    && (s.maxEntries > 0 ==> Sum(Limits(s), active) <= s.maxEntries)
  }

  lemma IsolatedFits(s: Store, active: set<Text>)
    requires Consistent(s) && Isolated(s, active) && s.maxEntries > 0
    ensures s.total <= s.maxEntries
  {
    TotalIsSum(s);
    SumZero(Lens(s), s.buckets.Keys, active);
    SumMonotone(Lens(s), Limits(s), active);
  }

  /** The partner's bucket after one insertion into a bucket that was within its cap. */
  function Rolled(b: Bucket, key: Text): Bucket {
    b.(lru := if |b.lru| < b.limit then b.lru + [key] else (b.lru + [key])[1..])
  }

  /** What one insertion of a fresh key does to a bucket within its positive cap. */
  lemma TrimmedFresh(s: Store, e: Entry)
    requires Consistent(s) && e.key !in s.pseudonyms && e.partner in s.buckets
    requires 0 < s.buckets[e.partner].limit && |s.buckets[e.partner].lru| <= s.buckets[e.partner].limit
    ensures var b := s.buckets[e.partner];
            var t := Trimmed(s, e);
            && t.buckets == s.buckets[e.partner := Rolled(b, e.key)] && t.maxEntries == s.maxEntries
            && t.pseudonyms == (if |b.lru| < b.limit then s.pseudonyms else s.pseudonyms - {b.lru[0]})[e.key := e]
  {
    hide EvictOldest, ListsOk, ForwardOk;
    var a := Added(s, e);
    AddedConsistent(s, e);
    var b := s.buckets[e.partner];
    assert a.buckets == s.buckets[e.partner := b.(lru := b.lru + [e.key])];
    if |b.lru| == b.limit {
      EvictOldestConsistent(a, e.partner);
      assert EvictPartner(a, e.partner) == EvictPartner(EvictOldest(a, e.partner), e.partner);
      OldestIsOld(s, e);
      assert EvictOldest(a, e.partner).buckets == s.buckets[e.partner := Rolled(b, e.key)];
    }
  }

  lemma TrimmedIsolated(s: Store, active: set<Text>, e: Entry)
    requires Consistent(s) && Isolated(s, active) && e.partner in active && e.key !in s.pseudonyms
    ensures Isolated(Trimmed(s, e), active) && Trimmed(s, e).maxEntries == s.maxEntries
  {
    hide Trimmed, ListsOk, ForwardOk;
    TrimmedFresh(s, e);
    SameLimits(s, Trimmed(s, e), active);
  }

  lemma OldestIsOld(s: Store, e: Entry)
    requires Consistent(s) && e.partner in s.buckets && s.buckets[e.partner].lru != [] && e.key !in s.pseudonyms
    ensures s.buckets[e.partner].lru[0] != e.key
  {
    assert Lists(s.pseudonyms, e.partner, s.buckets[e.partner].lru);
    assert s.buckets[e.partner].lru[0] in s.buckets[e.partner].lru;
  }

  lemma SameLimits(s: Store, t: Store, active: set<Text>)
    requires forall p :: p in active ==> BucketOf(s, p).limit == BucketOf(t, p).limit
    ensures Sum(Limits(s), active) == Sum(Limits(t), active)
  {
    SumMonotone(Limits(s), Limits(t), active);
    SumMonotone(Limits(t), Limits(s), active);
  }

  /**
   * Partner isolation: a fresh pseudonym of one partner removes, whatever the map order, at most
   * one mapping: the least recently used of its own partner, and only when that one is at its cap.
   */
  lemma PutIsolated(s: Store, active: set<Text>, e: Entry, victims: seq<Text>)
    requires Valid(s) && Isolated(s, active) && e.partner in active && e.key !in s.pseudonyms
    requires Legal(Trimmed(s, e), victims)
    ensures victims == [] && Isolated(Put(s, e, victims), active)
    ensures var b := s.buckets[e.partner];
            Put(s, e, victims).pseudonyms ==
              (if |b.lru| < b.limit then s.pseudonyms else s.pseudonyms - {b.lru[0]})[e.key := e]
  {
    hide Trimmed, ListsOk, ForwardOk;
    TrimmedFresh(s, e);
    TrimmedIsolated(s, active, e);
    hide Isolated;
    if s.maxEntries > 0 {
      IsolatedFits(Trimmed(s, e), active);
    }
  }

  /** In particular no other partner loses anything. */
  lemma OthersUntouched(s: Store, active: set<Text>, e: Entry, victims: seq<Text>)
    requires Valid(s) && Isolated(s, active) && e.partner in active && e.key !in s.pseudonyms
    requires Legal(Trimmed(s, e), victims)
    ensures forall k :: k in s.pseudonyms && s.pseudonyms[k].partner != e.partner ==>
              k in Put(s, e, victims).pseudonyms && Put(s, e, victims).pseudonyms[k] == s.pseudonyms[k]
  {
    hide Trimmed, ForwardOk, Put, Legal;
    PutIsolated(s, active, e, victims);
    var lru := s.buckets[e.partner].lru;
    assert Lists(s.pseudonyms, e.partner, lru);
    if lru != [] {
      assert lru[0] in lru;
    }
  }

  /** Setting the caps of the active partners on an empty store establishes isolation. */
  lemma LimitsIsolate(s: Store, active: set<Text>)
    requires Consistent(s) && s.pseudonyms == map[] && active <= s.buckets.Keys
    requires forall p :: p in active ==> 0 < s.buckets[p].limit
    requires s.maxEntries > 0 ==> s.maxEntries >= Sum(Limits(s), active)
    ensures Isolated(s, active)
  {
    forall p | p in s.buckets ensures s.buckets[p].lru == [] {
      assert Lists(s.pseudonyms, p, s.buckets[p].lru);
      NoDupCount(s.buckets[p].lru, {});
    }
  }
}
