/**
 * What callers of the pseudonym store can observe. Lists, caps, touching, lazy expiry, sweeping and the
 * joined forward keys disappear: the store answers like a plain map from pseudonyms to hosts with
 * deadlines and another from hosts and sessions to pseudonyms, from which each insertion takes the
 * evicted keys away.
 */
module StoreRefinement {
  import opened Bytes
  import opened Names
  import opened PseudonymStore
  import opened Sums

  /** The host a pseudonym stands for at time `t`, and the pseudonym of a host and session at `t`. */
  function RealAt(s: Store, k: Text, t: int): Option<Text> {
    if Live(s.pseudonyms, k, t) then Some(s.pseudonyms[k].value) else None
  }

  function ForwardAt(s: Store, a: Text, t: int): Option<Text> {
    if a in s.forward && Live(s.pseudonyms, s.forward[a], t) then Some(s.forward[a]) else None
  }

  // ---------------------------------------------------------------- forward keys

  function Joined(host: Text, session: Text): Text { host + [BAR] + session }

  lemma JoinedTells(h1: Text, s1: Text, h2: Text, s2: Text)
    requires BAR !in h1 && BAR !in h2 && Joined(h1, s1) == Joined(h2, s2)
    ensures h1 == h2 && s1 == s2
  {
    var k := Joined(h1, s1);
    FirstBar(h1, s1);
    FirstBar(h2, s2);
    assert k[..|h1|] == h1 && k[..|h2|] == h2;
    assert k[|h1| + 1..] == s1 && k[|h2| + 1..] == s2;
  }

  lemma FirstBar(h: Text, rest: Text)
    requires BAR !in h
    ensures var k := Joined(h, rest); k[|h|] == BAR && forall i :: 0 <= i < |h| ==> k[i] != BAR
  {
  }

  /** For hosts without a bar, a forward key stands for one normal host in exactly one session. */
  lemma ForwardKeyTells(h1: Text, s1: Text, h2: Text, s2: Text)
    requires BAR !in h1 && BAR !in h2
    ensures ForwardKey(h1, s1) == ForwardKey(h2, s2) <==> Normalize(h1) == Normalize(h2) && s1 == s2
  {
    NormalizeAddsNoBar(h1);
    NormalizeAddsNoBar(h2);
    hide Normalize;
    if ForwardKey(h1, s1) == ForwardKey(h2, s2) {
      JoinedTells(Normalize(h1), s1, Normalize(h2), s2);
    }
  }

  /** A host with a bar in it shares its forward key with another host in another session. */
  lemma BarConfuses(h: Text, session: Text)
    requires BAR in Normalize(h)
    ensures exists h', session' ::
      ForwardKey(h', session') == ForwardKey(h, session) && Normalize(h') != Normalize(h) && session' != session
  {
    var n := Normalize(h);
    var i := IndexOf(n, BAR);
    var (front, rest) := (n[..i], n[i + 1..]);
    NormalizedStart(h);
    assert Lower(front) == Lower(n)[..i];
    DottedNormal(front);
    assert Joined(front, rest + [BAR] + session) == Joined(n, session) by {
      assert n == front + [BAR] + rest;
    }
    assert |rest + [BAR] + session| > |session|;
    assert ForwardKey(front + [DOT], rest + [BAR] + session) == ForwardKey(h, session);
  }

  lemma IndexOf(s: Text, b: byte) returns (i: nat)
    requires b in s
    ensures i < |s| && s[i] == b
  {
    i :| i < |s| && s[i] == b;
  }

  /** `r` is `s` with some entries taken out of every index. */
  ghost predicate Shrinks(s: Store, r: Store) {
    && (forall k :: k in r.pseudonyms ==> k in s.pseudonyms && r.pseudonyms[k] == s.pseudonyms[k])
    && (forall a :: a in r.forward <==> a in s.forward && s.forward[a] in r.pseudonyms)
    && (forall a :: a in r.forward ==> r.forward[a] == s.forward[a])
  }

  lemma RemoveShrinks(s: Store, k: Text)
    requires Consistent(s) && k in s.pseudonyms
    ensures Shrinks(s, Remove(s, s.pseudonyms[k]))
  {
    hide Lists, Without;
    assert s.pseudonyms[k].key == k;
  }

  lemma {:induction false} EvictPartnerShrinks(s: Store, partner: Text)
    requires Consistent(s)
    ensures Shrinks(s, EvictPartner(s, partner))
    decreases LenOf(s, partner)
  {
    hide ListsOk, Remove;
    var b := BucketOf(s, partner);
    if 0 < b.limit < |b.lru| {
      EvictOldestConsistent(s, partner);
      RemoveShrinks(s, b.lru[0]);
      EvictPartnerShrinks(EvictOldest(s, partner), partner);
    }
  }

  lemma {:induction false} EvictGlobalShrinks(s: Store, victims: seq<Text>)
    requires Consistent(s) && Legal(s, victims)
    ensures Shrinks(s, EvictGlobal(s, victims))
    decreases |victims|
  {
    hide ListsOk, Remove;
    if victims != [] {
      EvictOldestConsistent(s, victims[0]);
      RemoveShrinks(s, s.buckets[victims[0]].lru[0]);
      EvictGlobalShrinks(EvictOldest(s, victims[0]), victims[1..]);
    }
  }

  /** Taking out only entries that are past their deadline changes no answer from now on. */
  lemma ExpiredRemovalIsInvisible(s: Store, r: Store, now: int)
    requires Consistent(s) && Shrinks(s, r)
    requires forall k :: Live(s.pseudonyms, k, now) ==> k in r.pseudonyms
    ensures forall k, t :: t >= now ==> RealAt(r, k, t) == RealAt(s, k, t)
    ensures forall a, t :: t >= now ==> ForwardAt(r, a, t) == ForwardAt(s, a, t)
  {
    hide ListsOk;
  }

  /** RealHost answers from what is live, and changes no later answer. */
  lemma RealHostIsLookup(s: Store, pseudonym: Text, now: int)
    requires Consistent(s)
    ensures var (r, answer) := FindRealHost(s, pseudonym, now);
            && answer == RealAt(s, Normalize(pseudonym), now)
            && (forall k, t :: t >= now ==> RealAt(r, k, t) == RealAt(s, k, t))
            && (forall a, t :: t >= now ==> ForwardAt(r, a, t) == ForwardAt(s, a, t))
  {
    hide ListsOk, Remove;
    var k := Normalize(pseudonym);
    if k in s.pseudonyms && s.pseudonyms[k].expiresAt <= now {
      RemoveShrinks(s, k);
      RemoveConsistent(s, k);
      ExpiredRemovalIsInvisible(s, Remove(s, s.pseudonyms[k]), now);
    }
  }

  /** Pseudonym answers from what is live, and changes no later answer. */
  lemma PseudonymIsLookup(s: Store, realHost: Text, session: Text, now: int)
    requires Consistent(s)
    ensures var (r, answer) := FindPseudonym(s, realHost, session, now);
            && answer == ForwardAt(s, Normalize(realHost) + [124] + session, now)
            && (forall k, t :: t >= now ==> RealAt(r, k, t) == RealAt(s, k, t))
            && (forall a, t :: t >= now ==> ForwardAt(r, a, t) == ForwardAt(s, a, t))
  {
    hide ListsOk, Remove;
    var a := ForwardKey(realHost, session);
    if a in s.forward && s.pseudonyms[s.forward[a]].expiresAt <= now {
      var k := s.forward[a];
      RemoveShrinks(s, k);
      RemoveConsistent(s, k);
      ExpiredRemovalIsInvisible(s, Remove(s, s.pseudonyms[k]), now);
    }
  }

  lemma SweepIsInvisible(s: Store, now: int)
    requires Consistent(s)
    ensures forall k, t :: t >= now ==> RealAt(Sweep(s, now), k, t) == RealAt(s, k, t)
    ensures forall a, t :: t >= now ==> ForwardAt(Sweep(s, now), a, t) == ForwardAt(s, a, t)
  {
    hide ListsOk, KeepLive, SweptBuckets, Gone, RealAt, ForwardAt;
    assert Shrinks(s, Sweep(s, now));
    assert forall k :: Live(s.pseudonyms, k, now) ==> k in Sweep(s, now).pseudonyms;
    ExpiredRemovalIsInvisible(s, Sweep(s, now), now);
  }

  // ---------------------------------------------------------------- the plain map

  /** Hosts with deadlines by pseudonym, and pseudonyms by host and session. Nothing ever leaves but by insertion. */
  datatype Table = Table(hosts: map<Text, (Text, int)>, forward: map<(Text, Text), Text>)

  predicate TableLive(a: Table, k: Text, t: int) { k in a.hosts && a.hosts[k].1 > t }

  function TableReal(a: Table, k: Text, t: int): Option<Text> {
    if TableLive(a, k, t) then Some(a.hosts[k].0) else None
  }

  function TableForward(a: Table, host: Text, session: Text, t: int): Option<Text> {
    if (host, session) in a.forward && TableLive(a, a.forward[(host, session)], t) then Some(a.forward[(host, session)])
    else None
  }

  /**
   * Insertion: the pseudonym is bound anew, the hosts and sessions that had it lose it, and the evicted
   * ones go.
   */
  function TablePut(a: Table, pseudonym: Text, realHost: Text, session: Text, deadline: int,
                    evicted: set<Text>): Table {
    var k := Normalize(pseudonym);
    var hosts := a.hosts[k := (realHost, deadline)];
    var others := map x | x in a.forward && a.forward[x] != k :: a.forward[x];
    var forward := others[(Normalize(realHost), session) := k];
    Table(hosts - evicted, map x | x in forward && forward[x] !in evicted :: forward[x])
  }

  ghost predicate Agree(s: Store, a: Table, now: int) {
    && (forall k, t :: t >= now ==> RealAt(s, k, t) == TableReal(a, k, t))
    && (forall h, x, t :: t >= now && BAR !in h ==> ForwardAt(s, Joined(h, x), t) == TableForward(a, h, x, t))
  }

  function Evicted(s: Store, e: Entry, victims: seq<Text>): set<Text>
    requires Consistent(s) && Legal(Trimmed(s, e), victims)
  {
    s.pseudonyms.Keys + {e.key} - Put(s, e, victims).pseudonyms.Keys
  }

  lemma PutShape(s: Store, e: Entry, victims: seq<Text>)
    requires Consistent(s) && Legal(Trimmed(s, e), victims)
    ensures Shrinks(Added(s, e), Put(s, e, victims)) && Consistent(Put(s, e, victims))
  {
    hide ListsOk, EvictPartner, EvictGlobal, Added, Legal, ForwardOk;
    AddedConsistent(s, e);
    EvictPartnerConsistent(Added(s, e), e.partner);
    EvictPartnerShrinks(Added(s, e), e.partner);
    EvictGlobalShrinks(Trimmed(s, e), victims);
    EvictGlobalValid(Trimmed(s, e), victims);
  }

  lemma AddedShape(s: Store, e: Entry)
    requires Consistent(s)
    ensures Added(s, e).pseudonyms == s.pseudonyms[e.key := e]
    ensures Added(s, e).forward ==
            (map x | x in s.forward && s.forward[x] != e.key :: s.forward[x])[e.alias := e.key]
  {
    hide ListsOk, Remove;
    AddedConsistent(s, e);
    if e.key in s.pseudonyms {
      RemoveShrinks(s, e.key);
      RemoveConsistent(s, e.key);
    }
  }

  lemma PutRefinesHosts(s: Store, a: Table, c: Call, now: int, k: Text, t: int)
    requires Consistent(s) && c.CallPut? && CanRun(s, AsOp(c, now)) && RealAt(s, k, t) == TableReal(a, k, t)
    ensures RealAt(Put(s, EntryOf(c, now), c.victims), k, t) == TableReal(TableAfterPut(s, a, c, now), k, t)
  {
    hide Consistent, Legal, Trimmed, Put, Normalize, ForwardKey;
    PutShape(s, EntryOf(c, now), c.victims);
    AddedShape(s, EntryOf(c, now));
  }

  /** The pseudonym that a forward key leads to after an insertion, before the eviction passes. */
  function Leads(s: Store, e: Entry, x: Text): Option<Text> {
    if x == e.alias then Some(e.key)
    else if x in s.forward && s.forward[x] != e.key then Some(s.forward[x])
    else None
  }

  lemma ForwardAfterPut(s: Store, e: Entry, victims: seq<Text>, x: Text, t: int)
    requires Consistent(s) && Legal(Trimmed(s, e), victims)
    ensures ForwardAt(Put(s, e, victims), x, t) ==
      var k := Leads(s, e, x);
      if k.Some? && k.value !in Evicted(s, e, victims) && Live(s.pseudonyms[e.key := e], k.value, t) then k else None
  {
    hide Consistent, Legal, Trimmed, Put;
    PutShape(s, e, victims);
    AddedShape(s, e);
  }

  lemma PutRefinesForward(s: Store, a: Table, c: Call, now: int, h: Text, x: Text, t: int)
    requires Consistent(s) && c.CallPut? && CanRun(s, AsOp(c, now)) && BAR !in c.realHost && BAR !in h
    requires ForwardAt(s, Joined(h, x), t) == TableForward(a, h, x, t)
    ensures ForwardAt(Put(s, EntryOf(c, now), c.victims), Joined(h, x), t)
            == TableForward(TableAfterPut(s, a, c, now), h, x, t)
  {
    hide Consistent, Legal, Trimmed, Put, Normalize, Evicted;
    var e := EntryOf(c, now);
    ForwardAfterPut(s, e, c.victims, Joined(h, x), t);
    NormalizeAddsNoBar(c.realHost);
    assert e.alias == Joined(Normalize(c.realHost), c.session);
    if Joined(h, x) == e.alias {
      JoinedTells(h, x, Normalize(c.realHost), c.session);
    }
  }

  /** One insertion keeps the store and the plain map in agreement. */
  lemma PutRefines(s: Store, a: Table, c: Call, now: int, from: int)
    requires Consistent(s) && c.CallPut? && CanRun(s, AsOp(c, now)) && BAR !in c.realHost && Agree(s, a, from)
    ensures Agree(Put(s, EntryOf(c, now), c.victims), TableAfterPut(s, a, c, now), from)
  {
    hide Consistent, Legal, Trimmed, Put, RealAt, ForwardAt, TableReal, TableForward, TableAfterPut, Joined, EntryOf;
    forall k, t | t >= from
      ensures RealAt(Put(s, EntryOf(c, now), c.victims), k, t) == TableReal(TableAfterPut(s, a, c, now), k, t)
    {
      PutRefinesHosts(s, a, c, now, k, t);
    }
    forall h, x, t | t >= from && BAR !in h
      ensures ForwardAt(Put(s, EntryOf(c, now), c.victims), Joined(h, x), t)
              == TableForward(TableAfterPut(s, a, c, now), h, x, t)
    {
      PutRefinesForward(s, a, c, now, h, x, t);
    }
  }

  // ---------------------------------------------------------------- whole runs

  datatype Op =
    | SetLimit(partner: Text, limit: int)
    | PutOp(entry: Entry, victims: seq<Text>)
    | AskPseudonym(realHost: Text, session: Text)
    | AskRealHost(pseudonym: Text)
    | SweepOp

  /** An operation with the time at which it runs. */
  datatype Timed = Timed(op: Op, now: int)

  ghost predicate CanRun(s: Store, op: Op)
    requires Consistent(s)
  {
    op.PutOp? ==> Legal(Trimmed(s, op.entry), op.victims)
  }

  function StoreStep(s: Store, o: Timed): (Store, Option<Text>)
    requires Consistent(s) && CanRun(s, o.op)
  {
    match o.op
    case SetLimit(partner, limit) => (SetPartnerLimit(s, partner, limit), None)
    case PutOp(e, victims) => (Put(s, e, victims), None)
    case AskPseudonym(h, session) => FindPseudonym(s, h, session, o.now)
    case AskRealHost(p) => FindRealHost(s, p, o.now)
    case SweepOp => (Sweep(s, o.now), None)
  }

  // ---------------------------------------------------------------- the calls of the interface

  datatype Call =
    | CallSetLimit(partner: Text, limit: int)
    | CallPut(partner: Text, pseudonym: Text, realHost: Text, session: Text, ttl: int, victims: seq<Text>)
    | CallPseudonym(realHost: Text, session: Text)
    | CallRealHost(pseudonym: Text)
    | CallSweep

  /** A call with the time at which it runs. */
  datatype At = At(call: Call, now: int)

  function EntryOf(c: Call, now: int): Entry
    requires c.CallPut?
  {
    MakeEntry(c.partner, c.pseudonym, c.realHost, c.session, now + c.ttl)
  }

  function AsOp(c: Call, now: int): Op {
    match c
    case CallSetLimit(partner, limit) => SetLimit(partner, limit)
    case CallPut(_, _, _, _, _, victims) => PutOp(EntryOf(c, now), victims)
    case CallPseudonym(h, session) => AskPseudonym(h, session)
    case CallRealHost(p) => AskRealHost(p)
    case CallSweep => SweepOp
  }

  function AsOps(calls: seq<At>): (r: seq<Timed>)
    ensures |r| == |calls|
  {
    seq(|calls|, i requires 0 <= i < |calls| => Timed(AsOp(calls[i].call, calls[i].now), calls[i].now))
  }

  /** No host that is put or asked for contains a bar. */
  predicate NoBars(calls: seq<At>) {
    forall i :: 0 <= i < |calls| ==>
      && (calls[i].call.CallPut? ==> BAR !in calls[i].call.realHost)
      && (calls[i].call.CallPseudonym? ==> BAR !in calls[i].call.realHost)
  }

  function TableAfterPut(s: Store, a: Table, c: Call, now: int): Table
    requires Consistent(s) && c.CallPut? && CanRun(s, AsOp(c, now))
  {
    TablePut(a, c.pseudonym, c.realHost, c.session, now + c.ttl, Evicted(s, EntryOf(c, now), c.victims))
  }

  function TableStep(s: Store, a: Table, c: Call, now: int): (Table, Option<Text>)
    requires Consistent(s) && CanRun(s, AsOp(c, now))
  {
    match c
    case CallPut(_, _, _, _, _, _) => (TableAfterPut(s, a, c, now), None)
    case CallPseudonym(h, session) => (a, TableForward(a, Normalize(h), session, now))
    case CallRealHost(p) => (a, TableReal(a, Normalize(p), now))
    case _ => (a, None)
  }

  lemma SweptList(m: map<Text, Entry>, p: Text, lru: seq<Text>, now: int)
    requires Lists(m, p, lru)
    ensures Lists(Kept(m, now), p, KeepLive(m, lru, now))
  {
    KeepLiveSpec(m, lru, now);
  }

  lemma SweptLists(m: map<Text, Entry>, buckets: map<Text, Bucket>, now: int)
    requires ListsOk(m, buckets)
    ensures ListsOk(Kept(m, now), SweptBuckets(m, buckets, now))
  {
    hide KeepLive, Lists;
    forall p | p in buckets
      ensures Lists(Kept(m, now), p, KeepLive(m, buckets[p].lru, now))
    {
      SweptList(m, p, buckets[p].lru, now);
    }
  }

  lemma SweepValid(s: Store, now: int)
    requires Valid(s)
    ensures Valid(Sweep(s, now))
  {
    hide ListsOk, SweptBuckets, Gone;
    SweptLists(s.pseudonyms, s.buckets, now);
    SubsetCard(Kept(s.pseudonyms, now).Keys, s.pseudonyms.Keys);
  }

  lemma {:induction false} KeepLiveSpec(m: map<Text, Entry>, q: seq<Text>, now: int)
    requires NoDup(q)
    ensures NoDup(KeepLive(m, q, now))
    ensures forall k :: k in KeepLive(m, q, now) <==> k in q && Live(m, k, now)
  {
    if q != [] {
      KeepLiveSpec(m, q[1..], now);
      assert q == [q[0]] + q[1..];
      assert q[0] !in q[1..];
    }
  }

  lemma StepValid(s: Store, o: Timed)
    requires Valid(s) && CanRun(s, o.op)
    ensures Valid(StoreStep(s, o).0)
  {
    hide Valid, Consistent;
    match o.op
    case SetLimit(partner, limit) => SetPartnerLimitValid(s, partner, limit);
    case PutOp(e, victims) => PutValid(s, e, victims);
    case AskPseudonym(h, session) => LookupsValid(s, h, session, o.now);
    case AskRealHost(p) => LookupsValid(s, p, [], o.now);
    case SweepOp => SweepValid(s, o.now);
  }

  /** Entries only come from being put. */
  ghost predicate NothingNew(s: Store, r: Store) {
    forall k :: k in r.pseudonyms ==> k in s.pseudonyms && r.pseudonyms[k] == s.pseudonyms[k]
  }

  lemma LookupsAddNothing(s: Store, name: Text, session: Text, now: int)
    requires Consistent(s)
    ensures NothingNew(s, FindPseudonym(s, name, session, now).0) && NothingNew(s, FindRealHost(s, name, now).0)
  {
    hide ListsOk, Normalize;
  }

  lemma SweepAddsNothing(s: Store, now: int)
    ensures NothingNew(s, Sweep(s, now))
  {
  }

  lemma PutAddsOne(s: Store, e: Entry, victims: seq<Text>)
    requires Consistent(s) && Legal(Trimmed(s, e), victims)
    ensures forall k :: k in Put(s, e, victims).pseudonyms ==>
              if k == e.key then Put(s, e, victims).pseudonyms[k] == e
              else k in s.pseudonyms && Put(s, e, victims).pseudonyms[k] == s.pseudonyms[k]
  {
    hide Consistent, Legal, Trimmed, Put;
    PutShape(s, e, victims);
    AddedShape(s, e);
    hide Added;
  }

  lemma StepRefines(s: Store, a: Table, c: Call, now: int, from: int)
    requires Valid(s) && CanRun(s, AsOp(c, now)) && Agree(s, a, from) && from <= now && NoBars([At(c, now)])
    ensures Agree(StoreStep(s, Timed(AsOp(c, now), now)).0, TableStep(s, a, c, now).0, now)
    ensures StoreStep(s, Timed(AsOp(c, now), now)).1 == TableStep(s, a, c, now).1
  {
    hide Consistent, FindPseudonym, FindRealHost, Sweep, Put, TableAfterPut, Normalize;
    assert [At(c, now)][0] == At(c, now);
    match c
    case CallSetLimit(partner, limit) =>
    case CallPut(_, _, _, _, _, _) => PutRefines(s, a, c, now, now);
    case CallPseudonym(h, session) =>
      NormalizeAddsNoBar(h);
      assert Joined(Normalize(h), session) == Normalize(h) + [124] + session;
      PseudonymIsLookup(s, h, session, now);
    case CallRealHost(p) => RealHostIsLookup(s, p, now);
    case CallSweep => SweepIsInvisible(s, now);
  }

  /** The clock does not go back, and each insertion evicts in an order a map walk can choose. */
  ghost predicate RunOk(s: Store, ops: seq<Timed>, now: int)
    requires Valid(s)
    decreases |ops|
  {
    ops == [] ||
    (&& now <= ops[0].now && CanRun(s, ops[0].op)
     && (StepValid(s, ops[0]);
         RunOk(StoreStep(s, ops[0]).0, ops[1..], ops[0].now)))
  }

  /** The store a run leads to. */
  ghost function StoreAfter(s: Store, ops: seq<Timed>, now: int): (r: Store)
    requires Valid(s) && RunOk(s, ops, now)
    ensures Valid(r)
    decreases |ops|
  {
    if ops == [] then s
    else
      StepValid(s, ops[0]);
      StoreAfter(StoreStep(s, ops[0]).0, ops[1..], ops[0].now)
  }

  ghost function StoreAnswers(s: Store, ops: seq<Timed>, now: int): seq<Option<Text>>
    requires Valid(s) && RunOk(s, ops, now)
    decreases |ops|
  {
    if ops == [] then []
    else
      StepValid(s, ops[0]);
      [StoreStep(s, ops[0]).1] + StoreAnswers(StoreStep(s, ops[0]).0, ops[1..], ops[0].now)
  }

  ghost function TableAnswers(s: Store, a: Table, calls: seq<At>, now: int): seq<Option<Text>>
    requires Valid(s) && RunOk(s, AsOps(calls), now)
    decreases |calls|
  {
    if calls == [] then []
    else
      var (c, ops) := (calls[0], AsOps(calls));
      StepValid(s, ops[0]);
      RestOfOps(calls);
      [TableStep(s, a, c.call, c.now).1]
      + TableAnswers(StoreStep(s, ops[0]).0, TableStep(s, a, c.call, c.now).0, calls[1..], c.now)
  }

  lemma RestOfOps(calls: seq<At>)
    requires calls != []
    ensures AsOps(calls)[1..] == AsOps(calls[1..])
  {
  }

  lemma {:induction false} RunRefines(s: Store, a: Table, calls: seq<At>, now: int)
    requires Valid(s) && RunOk(s, AsOps(calls), now) && Agree(s, a, now) && NoBars(calls)
    ensures StoreAnswers(s, AsOps(calls), now) == TableAnswers(s, a, calls, now)
    decreases |calls|
  {
    hide Agree, StoreStep, TableStep, Consistent, AsOp;
    if calls != [] {
      var (c, ops) := (calls[0], AsOps(calls));
      StepValid(s, ops[0]);
      RestOfOps(calls);
      assert [At(c.call, c.now)][0] == calls[0];
      StepRefines(s, a, c.call, c.now, now);
      RunRefines(StoreStep(s, ops[0]).0, TableStep(s, a, c.call, c.now).0, calls[1..], c.now);
    }
  }

  /**
   * Over any run with a clock that does not go back, on hosts without a bar, the store gives exactly the
   * answers of the plain maps: caps, lists, lazy expiry and sweeping are visible only as evictions, and
   * the pseudonym of a host in one session is never that of another host or session.
   */
  lemma StoreIsAMapWithExpiry(maxEntries: int, calls: seq<At>, now: int)
    requires RunOk(Empty(maxEntries), AsOps(calls), now) && NoBars(calls)
    ensures StoreAnswers(Empty(maxEntries), AsOps(calls), now)
            == TableAnswers(Empty(maxEntries), Table(map[], map[]), calls, now)
  {
    RunRefines(Empty(maxEntries), Table(map[], map[]), calls, now);
  }

  // ---------------------------------------------------------------- where answers come from

  /** Every entry was put by some operation of the run, or was there before. */
  ghost predicate FromPuts(s: Store, ops: seq<Timed>, r: Store) {
    forall k :: k in r.pseudonyms ==>
      || (k in s.pseudonyms && s.pseudonyms[k] == r.pseudonyms[k])
      || exists j :: PutBy(ops, j, r.pseudonyms[k])
  }

  ghost predicate PutBy(ops: seq<Timed>, j: int, e: Entry) {
    0 <= j < |ops| && ops[j].op.PutOp? && ops[j].op.entry == e
  }

  lemma StepFromPuts(s: Store, o: Timed)
    requires Valid(s) && CanRun(s, o.op)
    ensures FromPuts(s, [o], StoreStep(s, o).0)
  {
    hide Consistent, Legal, Trimmed, Put, FindPseudonym, FindRealHost, Sweep;
    match o.op
    case PutOp(e, victims) =>
      PutAddsOne(s, e, victims);
      assert PutBy([o], 0, e);
    case AskPseudonym(h, session) => LookupsAddNothing(s, h, session, o.now);
    case AskRealHost(p) => LookupsAddNothing(s, p, [], o.now);
    case SweepOp => SweepAddsNothing(s, o.now);
    case _ =>
  }

  lemma FromPutsAdd(s: Store, ops: seq<Timed>, mid: Store, r: Store)
    requires ops != [] && FromPuts(s, [ops[0]], mid) && FromPuts(mid, ops[1..], r)
    ensures FromPuts(s, ops, r)
  {
    forall k | k in r.pseudonyms
      ensures (k in s.pseudonyms && s.pseudonyms[k] == r.pseudonyms[k]) || exists j :: PutBy(ops, j, r.pseudonyms[k])
    {
      var e := r.pseudonyms[k];
      if j :| PutBy(ops[1..], j, e) {
        assert PutBy(ops, j + 1, e);
      } else if j :| PutBy([ops[0]], j, e) {
        assert PutBy(ops, 0, e);
      }
    }
  }

  lemma {:induction false} RunFromPuts(s: Store, ops: seq<Timed>, now: int)
    requires Valid(s) && RunOk(s, ops, now)
    ensures FromPuts(s, ops, StoreAfter(s, ops, now))
    decreases |ops|
  {
    hide Consistent, StoreStep, CanRun;
    if ops != [] {
      StepValid(s, ops[0]);
      StepFromPuts(s, ops[0]);
      var mid := StoreStep(s, ops[0]).0;
      RunFromPuts(mid, ops[1..], ops[0].now);
      FromPutsAdd(s, ops, mid, StoreAfter(s, ops, now));
    }
  }

  /** One of the calls put the pseudonym for that very host and session, and its time has not come. */
  ghost predicate WasPut(calls: seq<At>, j: int, k: Text, t: int) {
    0 <= j < |calls| && calls[j].call.CallPut? && Normalize(calls[j].call.pseudonym) == k
    && t < calls[j].now + calls[j].call.ttl
  }

  lemma EmptyValid(maxEntries: int)
    ensures Valid(Empty(maxEntries))
  {
  }

  lemma AnswerWasPut(maxEntries: int, calls: seq<At>, start: int, k: Text) returns (j: nat)
    requires RunOk(Empty(maxEntries), AsOps(calls), start)
    requires k in StoreAfter(Empty(maxEntries), AsOps(calls), start).pseudonyms
    ensures j < |calls| && calls[j].call.CallPut?
    ensures StoreAfter(Empty(maxEntries), AsOps(calls), start).pseudonyms[k] == EntryOf(calls[j].call, calls[j].now)
  {
    hide Valid, RunOk, StoreAfter, EntryOf;
    EmptyValid(maxEntries);
    RunFromPuts(Empty(maxEntries), AsOps(calls), start);
    var r := StoreAfter(Empty(maxEntries), AsOps(calls), start);
    j :| PutBy(AsOps(calls), j, r.pseudonyms[k]);
  }

  /**
   * Whatever came before, the pseudonym of a host in a session is one that was put for a host of that
   * normal form in exactly that session, and whose time has not come.
   */
  lemma PseudonymWasPut(maxEntries: int, calls: seq<At>, start: int, host: Text, session: Text, t: int)
    requires RunOk(Empty(maxEntries), AsOps(calls), start) && NoBars(calls) && BAR !in host
    ensures var answer := FindPseudonym(StoreAfter(Empty(maxEntries), AsOps(calls), start), host, session, t).1;
      answer.Some? ==> exists j ::
        && WasPut(calls, j, answer.value, t)
        && Normalize(calls[j].call.realHost) == Normalize(host) && calls[j].call.session == session
  {
    hide Lists, RunOk, StoreAfter, Normalize;
    var r := StoreAfter(Empty(maxEntries), AsOps(calls), start);
    if FindPseudonym(r, host, session, t).1.Some? {
      var k := FindPseudonym(r, host, session, t).1.value;
      var j := AnswerWasPut(maxEntries, calls, start, k);
      assert r.pseudonyms[k].key == k && r.pseudonyms[k].alias == ForwardKey(host, session);
      var c := calls[j].call;
      ForwardKeyTells(c.realHost, c.session, host, session);
      assert WasPut(calls, j, k, t);
    }
  }

  /** And the host behind a pseudonym is one that the pseudonym was put for. */
  lemma RealHostWasPut(maxEntries: int, calls: seq<At>, start: int, pseudonym: Text, t: int)
    requires RunOk(Empty(maxEntries), AsOps(calls), start)
    ensures var answer := FindRealHost(StoreAfter(Empty(maxEntries), AsOps(calls), start), pseudonym, t).1;
      answer.Some? ==> exists j ::
        WasPut(calls, j, Normalize(pseudonym), t) && calls[j].call.realHost == answer.value
  {
    hide Lists, RunOk, StoreAfter, Normalize, ForwardKey;
    var r := StoreAfter(Empty(maxEntries), AsOps(calls), start);
    if FindRealHost(r, pseudonym, t).1.Some? {
      var k := Normalize(pseudonym);
      var j := AnswerWasPut(maxEntries, calls, start, k);
      assert r.pseudonyms[k].key == k;
      assert WasPut(calls, j, k, t);
    }
  }

  // ---------------------------------------------------------------- the books balance

  /** Entries held, evicted and expired. */
  function Ledger(s: Store): int { s.total + s.stats.evictions + s.stats.expired }

  lemma EvictOldestBooks(s: Store, partner: Text)
    requires Consistent(s) && partner in s.buckets && s.buckets[partner].lru != []
    ensures CanEvict(s, partner)
    ensures var r := EvictOldest(s, partner);
            Ledger(r) == Ledger(s) && r.stats == s.stats.(evictions := r.stats.evictions)
  {
    EvictOldestConsistent(s, partner);
    hide Consistent;
  }

  lemma {:induction false} EvictPartnerBooks(s: Store, partner: Text)
    requires Consistent(s)
    ensures var r := EvictPartner(s, partner);
            Ledger(r) == Ledger(s) && r.stats == s.stats.(evictions := r.stats.evictions)
    decreases LenOf(s, partner)
  {
    hide ListsOk, ForwardOk, Remove;
    var b := BucketOf(s, partner);
    if 0 < b.limit < |b.lru| {
      EvictOldestConsistent(s, partner);
      EvictOldestBooks(s, partner);
      hide EvictOldest;
      EvictPartnerBooks(EvictOldest(s, partner), partner);
    }
  }

  lemma {:induction false} EvictGlobalBooks(s: Store, victims: seq<Text>)
    requires Consistent(s) && Legal(s, victims)
    ensures var r := EvictGlobal(s, victims);
            Ledger(r) == Ledger(s) && r.stats == s.stats.(evictions := r.stats.evictions)
    decreases |victims|
  {
    hide ListsOk, ForwardOk, Remove;
    if victims != [] {
      EvictOldestConsistent(s, victims[0]);
      EvictOldestBooks(s, victims[0]);
      hide EvictOldest;
      EvictGlobalBooks(EvictOldest(s, victims[0]), victims[1..]);
    }
  }

  lemma PutBooks(s: Store, e: Entry, victims: seq<Text>)
    requires Consistent(s) && Legal(Trimmed(s, e), victims)
    ensures var r := Put(s, e, victims);
      && Ledger(r) == Ledger(s) + (if e.key in s.pseudonyms then 0 else 1)
      && r.stats.hits == s.stats.hits && r.stats.misses == s.stats.misses
  {
    assert Added(s, e).total == s.total + (if e.key in s.pseudonyms then 0 else 1) && Added(s, e).stats == s.stats;
    AddedConsistent(s, e);
    EvictPartnerBooks(Added(s, e), e.partner);
    hide Consistent, Added, EvictPartner;
    EvictGlobalBooks(Trimmed(s, e), victims);
  }

  lemma LookupBooks(s: Store, name: Text, session: Text, now: int)
    requires Consistent(s)
    ensures var r := FindPseudonym(s, name, session, now).0;
      Ledger(r) == Ledger(s) && r.stats.hits == s.stats.hits && r.stats.misses == s.stats.misses
    ensures var (r, answer) := FindRealHost(s, name, now);
      && Ledger(r) == Ledger(s)
      && r.stats.hits == s.stats.hits + (if answer.Some? then 1 else 0)
      && r.stats.misses == s.stats.misses + (if answer.Some? then 0 else 1)
  {
    hide ListsOk, ForwardOk, Normalize, Without;
  }

  lemma SweepBooks(s: Store, now: int)
    requires Consistent(s)
    ensures var r := Sweep(s, now);
      Ledger(r) == Ledger(s) && r.stats.hits == s.stats.hits && r.stats.misses == s.stats.misses
  {
    hide ListsOk, ForwardOk;
    var (m, kept) := (s.pseudonyms, Kept(s.pseudonyms, now));
    assert m.Keys == kept.Keys + (m.Keys - kept.Keys);
  }

  /** One operation: a new key comes in, or what leaves is counted where it goes. */
  lemma StepBooks(s: Store, o: Timed)
    requires Valid(s) && CanRun(s, o.op)
    ensures var (r, answer) := StoreStep(s, o);
      && Ledger(r) == Ledger(s) + (if o.op.PutOp? && o.op.entry.key !in s.pseudonyms then 1 else 0)
      && r.stats.hits == s.stats.hits + (if o.op.AskRealHost? && answer.Some? then 1 else 0)
      && r.stats.misses == s.stats.misses + (if o.op.AskRealHost? && answer == None then 1 else 0)
  {
    hide Consistent, Legal, Trimmed, Put, FindPseudonym, FindRealHost, Sweep, Ledger;
    match o.op
    case SetLimit(partner, limit) => SetLimitBooks(s, partner, limit);
    case PutOp(e, victims) => PutBooks(s, e, victims);
    case AskPseudonym(h, session) => LookupBooks(s, h, session, o.now);
    case AskRealHost(p) => LookupBooks(s, p, [], o.now);
    case SweepOp => SweepBooks(s, o.now);
  }

  lemma SetLimitBooks(s: Store, partner: Text, limit: int)
    ensures Ledger(SetPartnerLimit(s, partner, limit)) == Ledger(s)
    ensures SetPartnerLimit(s, partner, limit).stats == s.stats
  {
  }

  /** How many keys a run puts that are not held at that moment, and how many hosts it asks for. */
  ghost function NewKeys(s: Store, ops: seq<Timed>, now: int): nat
    requires Valid(s) && RunOk(s, ops, now)
    decreases |ops|
  {
    if ops == [] then 0
    else
      StepValid(s, ops[0]);
      (if ops[0].op.PutOp? && ops[0].op.entry.key !in s.pseudonyms then 1 else 0)
      + NewKeys(StoreStep(s, ops[0]).0, ops[1..], ops[0].now)
  }

  function HostsAsked(ops: seq<Timed>): nat {
    if ops == [] then 0 else (if ops[0].op.AskRealHost? then 1 else 0) + HostsAsked(ops[1..])
  }

  lemma {:induction false} RunBooks(s: Store, ops: seq<Timed>, now: int)
    requires Valid(s) && RunOk(s, ops, now)
    ensures var r := StoreAfter(s, ops, now);
      && Ledger(r) == Ledger(s) + NewKeys(s, ops, now)
      && r.stats.hits + r.stats.misses == s.stats.hits + s.stats.misses + HostsAsked(ops)
    decreases |ops|
  {
    hide Consistent, StoreStep, CanRun, Ledger;
    if ops != [] {
      StepValid(s, ops[0]);
      StepBooks(s, ops[0]);
      RunBooks(StoreStep(s, ops[0]).0, ops[1..], ops[0].now);
    }
  }

  lemma TotalIsHeld(s: Store)
    requires Valid(s)
    ensures s.total == |s.pseudonyms|
  {
  }

  /**
   * The counters add up over every run: each new key is still held, was evicted or has expired, and each
   * host asked for was a hit or a miss.
   */
  lemma CountersAddUp(maxEntries: int, ops: seq<Timed>, now: int)
    requires RunOk(Empty(maxEntries), ops, now)
    ensures var r := StoreAfter(Empty(maxEntries), ops, now);
      && |r.pseudonyms| + r.stats.evictions + r.stats.expired == NewKeys(Empty(maxEntries), ops, now)
      && r.stats.hits + r.stats.misses == HostsAsked(ops)
  {
    EmptyValid(maxEntries);
    RunBooks(Empty(maxEntries), ops, now);
    TotalIsHeld(StoreAfter(Empty(maxEntries), ops, now));
    hide RunOk, StoreAfter, NewKeys, Valid;
  }
}
