/**
 * Whether hiding partners can take each other's pseudonyms away: over every run of the store that
 * Init sets up, for every order of its map walks, and exactly for which caps.
 */
module StoreIsolation {
  import opened Bytes
  import opened Names
  import opened Sums
  import opened PseudonymStore
  import opened StoreRefinement
  import opened Hiding
  import opened HidingStore
  import opened StoreLimits

  // ---------------------------------------------------------------- what is meant

  /** The entry `mask` stores at time `t` for a label drawn. */
  function MaskEntry(p: Policy, partner: Text, hex: Label, host: Text, session: Text, t: int): Entry {
    MakeEntry(partner, NewPseudonym(p, hex), host, session, t + Ttl(p))
  }

  /** Such an entry, for a host that may have to be masked. */
  ghost predicate Made(e: Entry, p: Policy, t: int) {
    exists hex: Label, host, session ::
      host != [] && Normalize(host) != Normalize(p.edge) && e == MaskEntry(p, e.partner, hex, host, session, t)
  }

  /** After Init no cap is set, and only some partners store pseudonyms. */
  predicate StoredBy(op: Op, active: set<Text>) { !op.SetLimit? && (op.PutOp? ==> op.entry.partner in active) }

  predicate AllStoredBy(ops: seq<Timed>, active: set<Text>) {
    forall i :: 0 <= i < |ops| ==> StoredBy(ops[i].op, active)
  }

  /** Those that hide statefully do, each by its policy. */
  ghost predicate Uses(o: Timed, storing: map<Text, Policy>) {
    StoredBy(o.op, storing.Keys) && (o.op.PutOp? ==> Made(o.op.entry, storing[o.op.entry.partner], o.now))
  }

  ghost predicate AllUse(ops: seq<Timed>, storing: map<Text, Policy>) {
    forall i :: 0 <= i < |ops| ==> Uses(ops[i], storing)
  }

  /** The mapping of `k` outlives the insertion of `e`. */
  ghost predicate Survives(s: Store, e: Entry, victims: seq<Text>, k: Text)
    requires Consistent(s) && Legal(Trimmed(s, e), victims)
  {
    k in s.pseudonyms ==> k in Put(s, e, victims).pseudonyms && Put(s, e, victims).pseudonyms[k] == s.pseudonyms[k]
  }

  /** No partner's next insertion takes another's mapping away, whatever the map order. */
  ghost predicate Separate(s: Store, storing: map<Text, Policy>)
    requires Consistent(s)
  {
    forall e: Entry, t, victims, k |
      && e.partner in storing && Made(e, storing[e.partner], t) && Legal(Trimmed(s, e), victims)
      && k in s.pseudonyms && s.pseudonyms[k].partner != e.partner && k != e.key
      :: Survives(s, e, victims, k)
  }

  /** That never happens, over all runs from here. */
  ghost predicate AlwaysSeparate(s: Store, storing: map<Text, Policy>)
    requires Valid(s)
  {
    forall ops, now | RunOk(s, ops, now) && AllUse(ops, storing) :: Separate(StoreAfter(s, ops, now), storing)
  }

  // ---------------------------------------------------------------- a partner's own cap

  /** A partner's own cap takes only that partner's mappings. */
  lemma {:induction false} EvictPartnerOwn(s: Store, partner: Text, k: Text)
    requires Consistent(s) && k in s.pseudonyms && s.pseudonyms[k].partner != partner
    ensures k in EvictPartner(s, partner).pseudonyms && EvictPartner(s, partner).pseudonyms[k] == s.pseudonyms[k]
    decreases LenOf(s, partner)
  {
    hide ListsOk, ForwardOk, EvictOldest;
    var b := BucketOf(s, partner);
    if 0 < b.limit < |b.lru| {
      FirstIsOwn(s, partner);
      EvictOldestConsistent(s, partner);
      EvictPartnerOwn(EvictOldest(s, partner), partner, k);
    }
  }

  lemma FirstIsOwn(s: Store, partner: Text)
    requires Consistent(s) && partner in s.buckets && s.buckets[partner].lru != []
    ensures var k := s.buckets[partner].lru[0]; k in s.pseudonyms && s.pseudonyms[k].partner == partner
  {
    assert Lists(s.pseudonyms, partner, s.buckets[partner].lru);
    assert s.buckets[partner].lru[0] in s.buckets[partner].lru;
  }

  lemma TrimmedTakesOwn(s: Store, e: Entry, k: Text)
    requires Consistent(s) && k in s.pseudonyms && s.pseudonyms[k].partner != e.partner && k != e.key
    ensures k in Trimmed(s, e).pseudonyms && Trimmed(s, e).pseudonyms[k] == s.pseudonyms[k]
  {
    AddedConsistent(s, e);
    EvictPartnerOwn(Added(s, e), e.partner, k);
  }

  /** Where the store-wide pass has nothing to do, partners are separate. */
  lemma NoPassSeparates(s: Store, storing: map<Text, Policy>)
    requires Consistent(s)
    requires forall e: Entry, victims :: e.partner in storing && Legal(Trimmed(s, e), victims) ==> victims == []
    ensures Separate(s, storing)
  {
    hide Trimmed;
    forall e: Entry, t, victims, k |
      && e.partner in storing && Made(e, storing[e.partner], t) && Legal(Trimmed(s, e), victims)
      && k in s.pseudonyms && s.pseudonyms[k].partner != e.partner && k != e.key
      ensures Survives(s, e, victims, k)
    {
      TrimmedTakesOwn(s, e, k);
    }
  }

  // ---------------------------------------------------------------- what every step keeps

  /** The same lists, possibly shorter, under the same caps. */
  ghost predicate Lighter(s: Store, t: Store) {
    && t.buckets.Keys == s.buckets.Keys && t.maxEntries == s.maxEntries
    && forall p :: p in s.buckets ==>
      t.buckets[p].limit == s.buckets[p].limit && |t.buckets[p].lru| <= |s.buckets[p].lru|
  }

  lemma LighterIsolated(s: Store, t: Store, active: set<Text>)
    requires Isolated(s, active) && Lighter(s, t)
    ensures Isolated(t, active)
  {
    SameLimits(s, t, active);
    forall p | p in t.buckets && p !in active
      ensures t.buckets[p].lru == []
    {
      assert p in s.buckets;
    }
  }

  lemma RemoveLighter(s: Store, k: Text)
    requires Consistent(s) && k in s.pseudonyms
    ensures Lighter(s, Remove(s, s.pseudonyms[k]))
  {
    hide Remove, ListsOk, ForwardOk;
    RemoveConsistent(s, k);
  }

  lemma TouchLighter(s: Store, k: Text)
    requires Consistent(s) && k in s.pseudonyms
    ensures Lighter(s, Touch(s, s.pseudonyms[k]))
  {
    hide Without;
    var e := s.pseudonyms[k];
    assert Lists(s.pseudonyms, e.partner, s.buckets[e.partner].lru);
    WithoutSpec(s.buckets[e.partner].lru, k);
  }

  lemma LookupsLighter(s: Store, name: Text, session: Text, now: int)
    requires Consistent(s)
    ensures Lighter(s, FindPseudonym(s, name, session, now).0) && Lighter(s, FindRealHost(s, name, now).0)
  {
    hide ListsOk, Remove, Touch;
    var a := ForwardKey(name, session);
    if a in s.forward {
      RemoveLighter(s, s.forward[a]);
      TouchLighter(s, s.forward[a]);
    }
    var k := Normalize(name);
    if k in s.pseudonyms {
      RemoveLighter(s, k);
      TouchLighter(s, k);
    }
  }

  lemma {:induction false} KeepLiveShorter(m: map<Text, Entry>, q: seq<Text>, now: int)
    ensures |KeepLive(m, q, now)| <= |q|
  {
    if q != [] {
      KeepLiveShorter(m, q[1..], now);
    }
  }

  lemma SweepLighter(s: Store, now: int)
    ensures Lighter(s, Sweep(s, now))
  {
    hide KeepLive;
    forall p | p in s.buckets
      ensures |Sweep(s, now).buckets[p].lru| <= |s.buckets[p].lru|
    {
      KeepLiveShorter(s.pseudonyms, s.buckets[p].lru, now);
    }
  }

  lemma ClearedLighter(s: Store, key: Text)
    requires Consistent(s)
    ensures Consistent(Cleared(s, key)) && Lighter(s, Cleared(s, key)) && Cleared(s, key).total <= s.total
  {
    ClearedConsistent(s, key);
    if key in s.pseudonyms {
      RemoveLighter(s, key);
      RemoveConsistent(s, key);
    }
  }

  lemma ClearedAdded(s: Store, e: Entry)
    requires Consistent(s)
    ensures Added(Cleared(s, e.key), e) == Added(s, e)
  {
    hide Remove;
    ClearedConsistent(s, e.key);
  }

  /** An insertion by an active partner, of a new key or of one bound before, keeps isolation and evicts nobody. */
  lemma PutKeepsIsolated(s: Store, active: set<Text>, e: Entry, victims: seq<Text>)
    requires Valid(s) && Isolated(s, active) && e.partner in active && Legal(Trimmed(s, e), victims)
    ensures victims == [] && Isolated(Put(s, e, victims), active)
  {
    var c := Cleared(s, e.key);
    ClearedLighter(s, e.key);
    LighterIsolated(s, c, active);
    ClearedConsistent(s, e.key);
    ClearedAdded(s, e);
    hide Isolated, Consistent, Added, EvictPartner, Cleared, Lighter, EvictGlobal;
    assert Trimmed(c, e) == Trimmed(s, e);
    PutIsolated(c, active, e, victims);
  }

  /** Every operation of the store keeps isolation but for setting the cap of an active partner. */
  lemma StepKeepsIsolated(s: Store, o: Timed, active: set<Text>)
    requires Valid(s) && CanRun(s, o.op) && Isolated(s, active) && StoredBy(o.op, active)
    ensures Isolated(StoreStep(s, o).0, active)
  {
    hide Isolated, Consistent, Lighter, Trimmed, Put, FindPseudonym, FindRealHost, Sweep;
    match o.op
    case PutOp(e, victims) => PutKeepsIsolated(s, active, e, victims);
    case AskPseudonym(h, session) =>
      LookupsLighter(s, h, session, o.now);
      LighterIsolated(s, FindPseudonym(s, h, session, o.now).0, active);
    case AskRealHost(p) =>
      LookupsLighter(s, p, [], o.now);
      LighterIsolated(s, FindRealHost(s, p, o.now).0, active);
    case SweepOp =>
      SweepLighter(s, o.now);
      LighterIsolated(s, Sweep(s, o.now), active);
  }

  lemma LimitMovesSum(s: Store, active: set<Text>, partner: Text, limit: int)
    requires partner in active && partner in s.buckets
    ensures Sum(Limits(SetPartnerLimit(s, partner, limit)), active)
            == Sum(Limits(s), active) - s.buckets[partner].limit + limit
  {
    var t := SetPartnerLimit(s, partner, limit);
    SumPick(Limits(s), active, partner);
    SumPick(Limits(t), active, partner);
    SameLimits(s, t, active - {partner});
  }

  /** And setting it keeps isolation exactly when the new cap is positive, covers the list and fits the store. */
  lemma SetLimitKeepsIsolated(s: Store, active: set<Text>, partner: Text, limit: int)
    requires Isolated(s, active)
    ensures Isolated(SetPartnerLimit(s, partner, limit), active) <==>
              (partner in active ==>
                 && 0 < limit && LenOf(s, partner) <= limit
                 && (s.maxEntries > 0 ==> Sum(Limits(s), active) - s.buckets[partner].limit + limit <= s.maxEntries))
  {
    var t := SetPartnerLimit(s, partner, limit);
    if partner in active {
      LimitMovesSum(s, active, partner, limit);
      hide Sum;
      assert t.buckets[partner] == s.buckets[partner].(limit := limit);
    } else {
      SameLimits(s, t, active);
      hide Sum;
    }
  }

  lemma {:induction false} RunKeepsIsolated(s: Store, ops: seq<Timed>, now: int, active: set<Text>)
    requires Valid(s) && RunOk(s, ops, now) && AllStoredBy(ops, active) && Isolated(s, active)
    ensures Isolated(StoreAfter(s, ops, now), active)
    decreases |ops|
  {
    hide Isolated, Consistent, StoreStep, CanRun, StoredBy;
    if ops != [] {
      StepValid(s, ops[0]);
      StepKeepsIsolated(s, ops[0], active);
      assert AllStoredBy(ops[1..], active);
      RunKeepsIsolated(StoreStep(s, ops[0]).0, ops[1..], ops[0].now, active);
    }
  }

  /** The store-wide cap never changes, and only active partners ever hold entries. */
  ghost predicate HeldBy(s: Store, active: set<Text>) {
    forall k :: k in s.pseudonyms ==> s.pseudonyms[k].partner in active
  }

  lemma PutKeepsCap(s: Store, e: Entry, victims: seq<Text>)
    requires Consistent(s) && Legal(Trimmed(s, e), victims)
    ensures Put(s, e, victims).maxEntries == s.maxEntries
  {
    hide Consistent, EvictGlobal, Legal, Added, EvictPartner;
    AddedConsistent(s, e);
    EvictPartnerConsistent(Added(s, e), e.partner);
    EvictGlobalValid(Trimmed(s, e), victims);
  }

  lemma StepKeepsHolders(s: Store, o: Timed, active: set<Text>)
    requires Valid(s) && CanRun(s, o.op) && StoredBy(o.op, active)
    ensures StoreStep(s, o).0.maxEntries == s.maxEntries
    ensures HeldBy(s, active) ==> HeldBy(StoreStep(s, o).0, active)
  {
    hide Consistent, Trimmed, Put, FindPseudonym, FindRealHost, Sweep;
    match o.op
    case PutOp(e, victims) =>
      PutAddsOne(s, e, victims);
      PutKeepsCap(s, e, victims);
    case AskPseudonym(h, session) =>
      LookupsAddNothing(s, h, session, o.now);
      LookupsLighter(s, h, session, o.now);
    case AskRealHost(p) =>
      LookupsAddNothing(s, p, [], o.now);
      LookupsLighter(s, p, [], o.now);
    case SweepOp =>
      SweepAddsNothing(s, o.now);
      SweepLighter(s, o.now);
  }

  lemma {:induction false} RunKeepsHolders(s: Store, ops: seq<Timed>, now: int, active: set<Text>)
    requires Valid(s) && RunOk(s, ops, now) && AllStoredBy(ops, active) && HeldBy(s, active)
    ensures HeldBy(StoreAfter(s, ops, now), active) && StoreAfter(s, ops, now).maxEntries == s.maxEntries
    decreases |ops|
  {
    hide HeldBy, Consistent, StoreStep, CanRun, StoredBy;
    if ops != [] {
      StepValid(s, ops[0]);
      StepKeepsHolders(s, ops[0], active);
      assert AllStoredBy(ops[1..], active);
      RunKeepsHolders(StoreStep(s, ops[0]).0, ops[1..], ops[0].now, active);
    }
  }

  // ---------------------------------------------------------------- caps that keep partners apart

  lemma AtMostOne(active: set<Text>, a: Text, b: Text)
    requires |active| <= 1 && a in active && b in active
    ensures a == b
  {
    SubsetCard({a, b}, active);
  }

  lemma NoCapNoPass(s: Store, e: Entry, victims: seq<Text>)
    requires Consistent(s) && s.maxEntries <= 0 && Legal(Trimmed(s, e), victims)
    ensures victims == []
  {
    hide Consistent, Added, EvictPartner;
    AddedConsistent(s, e);
    EvictPartnerConsistent(Added(s, e), e.partner);
  }

  lemma UsedIsStored(ops: seq<Timed>, storing: map<Text, Policy>)
    requires AllUse(ops, storing)
    ensures AllStoredBy(ops, storing.Keys)
  {
    hide Made, StoredBy;
  }

  /** With no store-wide cap, a single partner or isolating caps, no run brings the partners together. */
  lemma CapsSeparate(s: Store, storing: map<Text, Policy>)
    requires Valid(s) && HeldBy(s, storing.Keys)
    requires s.maxEntries <= 0 || |storing| <= 1 || Isolated(s, storing.Keys)
    ensures AlwaysSeparate(s, storing)
  {
    hide Isolated, RunOk, StoreAfter, AllUse, Separate, Trimmed, Legal;
    forall ops, now | RunOk(s, ops, now) && AllUse(ops, storing)
      ensures Separate(StoreAfter(s, ops, now), storing)
    {
      UsedIsStored(ops, storing);
      RunKeepsHolders(s, ops, now, storing.Keys);
      if Isolated(s, storing.Keys) {
        RunKeepsIsolated(s, ops, now, storing.Keys);
      }
      SeparateNow(StoreAfter(s, ops, now), storing);
    }
  }

  lemma SeparateNow(t: Store, storing: map<Text, Policy>)
    requires Valid(t) && HeldBy(t, storing.Keys)
    requires t.maxEntries <= 0 || |storing| <= 1 || Isolated(t, storing.Keys)
    ensures Separate(t, storing)
  {
    hide Isolated, Consistent, Trimmed, Legal, Survives, Made;
    if |storing| <= 1 {
      forall a, b | a in storing && b in storing
        ensures a == b
      {
        AtMostOne(storing.Keys, a, b);
      }
    } else {
      forall e: Entry, victims | e.partner in storing && Legal(Trimmed(t, e), victims)
        ensures victims == []
      {
        if t.maxEntries <= 0 {
          NoCapNoPass(t, e, victims);
        } else {
          PutKeepsIsolated(t, storing.Keys, e, victims);
        }
      }
      NoPassSeparates(t, storing);
      hide Separate;
    }
  }

  // ---------------------------------------------------------------- and runs that bring them together otherwise

  /** Some run from here, all at one time, ends where one partner's insertion can take another's mapping. */
  ghost predicate CanDisturb(s: Store, storing: map<Text, Policy>)
    requires Valid(s)
  {
    exists ops :: RunOk(s, ops, 0) && AllUse(ops, storing) && !Separate(StoreAfter(s, ops, 0), storing)
  }

  lemma Disturbing(s: Store, storing: map<Text, Policy>)
    requires Valid(s) && !Separate(s, storing)
    ensures CanDisturb(s, storing)
  {
    hide Separate, Consistent;
    assert RunOk(s, [], 0) && AllUse([], storing) && !Separate(StoreAfter(s, [], 0), storing);
  }

  lemma Earlier(s: Store, op: Op, storing: map<Text, Policy>)
    requires Valid(s) && CanRun(s, op) && Uses(Timed(op, 0), storing) && Valid(StoreStep(s, Timed(op, 0)).0)
    requires CanDisturb(StoreStep(s, Timed(op, 0)).0, storing)
    ensures CanDisturb(s, storing)
  {
    hide Separate, Consistent, Uses, CanRun, StoreStep;
    var r := StoreStep(s, Timed(op, 0)).0;
    var rest :| RunOk(r, rest, 0) && AllUse(rest, storing) && !Separate(StoreAfter(r, rest, 0), storing);
    var ops := [Timed(op, 0)] + rest;
    assert ops[1..] == rest;
    assert RunOk(s, ops, 0) && StoreAfter(s, ops, 0) == StoreAfter(r, rest, 0);
    assert AllUse(ops, storing);
  }

  lemma Longest(ks: set<Text>) returns (n: nat)
    ensures forall k :: k in ks ==> |k| <= n
  {
    n := 0;
    if ks != {} {
      var k :| k in ks;
      n := Longest(ks - {k});
      n := if n < |k| then |k| else n;
    }
  }

  /** There is always a label whose pseudonym is new, whatever the policy. */
  lemma FreshEntry(p: Policy, partner: Text, ks: set<Text>) returns (e: Entry)
    ensures e.partner == partner && e.key !in ks && Made(e, p, 0)
  {
    var n := Longest(ks);
    var hex: Label := seq(n + 1, _ => 97);
    LongPseudonym(p, hex);
    var host := SomeHost(p);
    e := MaskEntry(p, partner, hex, host, [], 0);
    hide Normalize, NewPseudonym, IsLabel;
    assert e == MaskEntry(p, e.partner, hex, host, [], 0);
  }

  lemma SomeHost(p: Policy) returns (host: Text)
    ensures host != [] && Normalize(host) != Normalize(p.edge)
  {
    var a: Text, b: Text := [97], [98];
    assert Normalize(a) == a && Normalize(b) == b;
    host := if a == Normalize(p.edge) then b else a;
  }

  lemma LongPseudonym(p: Policy, hex: Label)
    ensures |Normalize(NewPseudonym(p, hex))| >= |hex|
  {
    LabelIsSolid(p, hex);
    var l := Normalize(p.prefix) + hex;
    var x := if p.realm == [] then [] else [DOT] + Normalize(p.realm);
    assert NewPseudonym(p, hex) == l + x;
    NormalizeOnto(l, x);
    hide Normalize;
  }

  /** The partner has room under its own cap. */
  predicate Room(s: Store, p: Text) {
    p in s.buckets && (s.buckets[p].limit <= 0 || |s.buckets[p].lru| < s.buckets[p].limit)
  }

  function Extended(s: Store, p: Text, key: Text): map<Text, Bucket>
    requires p in s.buckets
  {
    s.buckets[p := s.buckets[p].(lru := s.buckets[p].lru + [key])]
  }

  lemma FreshAdded(s: Store, e: Entry)
    requires Consistent(s) && e.key !in s.pseudonyms && Room(s, e.partner)
    ensures var t := Trimmed(s, e);
            && Consistent(t) && t.buckets == Extended(s, e.partner, e.key) && t.total == s.total + 1
               && t.maxEntries == s.maxEntries
            && t.pseudonyms == s.pseudonyms[e.key := e]
  {
    hide ListsOk, ForwardOk;
    AddedConsistent(s, e);
    Reinserted(s.pseudonyms, e);
    assert Added(s, e).buckets == Extended(s, e.partner, e.key);
    assert EvictPartner(Added(s, e), e.partner) == Added(s, e);
  }

  /** One insertion by a partner with room into a store with room. */
  lemma FillOne(s: Store, p: Text, storing: map<Text, Policy>) returns (t: Store, key: Text)
    requires Valid(s) && p in storing && Room(s, p) && s.total < s.maxEntries
    ensures Valid(t) && t.buckets == Extended(s, p, key) && t.total == s.total + 1 && t.maxEntries == s.maxEntries
    ensures CanDisturb(t, storing) ==> CanDisturb(s, storing)
  {
    var e := FreshEntry(storing[p], p, s.pseudonyms.Keys);
    key := e.key;
    FreshAdded(s, e);
    hide Consistent, Trimmed, CanDisturb, Made;
    assert Legal(Trimmed(s, e), []);
    t := Put(s, e, []);
    if CanDisturb(t, storing) {
      Earlier(s, PutOp(e, []), storing);
    }
  }

  lemma VictimTaken(t: Store, v: Text)
    requires Consistent(t) && t.total == t.maxEntries + 1 && t.maxEntries > 0 && IsLargest(t, v)
             && t.buckets[v].lru != []
    ensures Legal(t, [v]) && EvictGlobal(t, [v]).pseudonyms == t.pseudonyms - {t.buckets[v].lru[0]}
  {
    hide Consistent, EvictOldest;
    EvictOldestConsistent(t, v);
    var r := EvictOldest(t, v);
    assert [v][1..] == [];
    assert Legal(r, []) && EvictGlobal(r, []) == r;
  }

  /** In a full store the insertion of one partner takes the oldest mapping of a larger one. */
  lemma Overflow(s: Store, v: Text, p: Text, storing: map<Text, Policy>)
    requires Valid(s) && s.total == s.maxEntries > 0 && v in storing && p in storing && v != p && v in s.buckets
             && Room(s, p)
    requires LenOf(s, p) < LenOf(s, v) && forall q :: q in s.buckets ==> LenOf(s, q) <= LenOf(s, v)
    ensures CanDisturb(s, storing)
  {
    var e := FreshEntry(storing[p], p, s.pseudonyms.Keys);
    FreshAdded(s, e);
    FirstIsOwn(s, v);
    hide Consistent, Trimmed, CanDisturb, Legal, EvictGlobal, Made;
    var t := Trimmed(s, e);
    assert IsLargest(t, v);
    VictimTaken(t, v);
    var k := s.buckets[v].lru[0];
    assert k !in Put(s, e, [v]).pseudonyms;
    assert !Survives(s, e, [v], k);
    Disturbing(s, storing);
  }

  /** Every active partner is within its positive cap, together the caps exceed the store's, and `v` has the largest. */
  ghost predicate Crowded(s: Store, active: set<Text>, v: Text) {
    && active <= s.buckets.Keys && v in active
    && (forall p :: p in active ==> 0 < s.buckets[p].limit <= s.buckets[v].limit)
    && Sum(Limits(s), active) > s.maxEntries
  }

  lemma SomeRoom(s: Store, active: set<Text>) returns (p: Text)
    requires Consistent(s) && active <= s.buckets.Keys && s.total < Sum(Limits(s), active)
    requires forall p :: p in s.buckets && p !in active ==> s.buckets[p].lru == []
    ensures p in active && |s.buckets[p].lru| < s.buckets[p].limit
  {
    TotalIsSum(s);
    SumZero(Lens(s), s.buckets.Keys, active);
    hide Consistent;
    if forall p :: p in active ==> Limits(s)(p) <= Lens(s)(p) {
      SumMonotone(Limits(s), Lens(s), active);
    }
    p :| p in active && Limits(s)(p) > Lens(s)(p);
  }

  lemma ExtendedCrowded(s: Store, t: Store, active: set<Text>, v: Text, p: Text, key: Text)
    requires Crowded(s, active, v) && p in s.buckets && t.buckets == Extended(s, p, key) && t.maxEntries == s.maxEntries
    ensures Crowded(t, active, v)
  {
    SameLimits(s, t, active);
  }

  /** The largest partner is full and no other is above its cap. */
  ghost predicate TopFull(s: Store, active: set<Text>, v: Text) {
    && Crowded(s, active, v) && LenOf(s, v) == s.buckets[v].limit
    && (forall p :: p in active ==> |s.buckets[p].lru| <= s.buckets[p].limit)
    && (forall p :: p in s.buckets && p !in active ==> s.buckets[p].lru == [])
  }

  lemma ExtendedTopFull(s: Store, t: Store, active: set<Text>, v: Text, p: Text, key: Text)
    requires TopFull(s, active, v) && p in active && |s.buckets[p].lru| < s.buckets[p].limit
    requires t.buckets == Extended(s, p, key) && t.maxEntries == s.maxEntries
    ensures TopFull(t, active, v)
  {
    ExtendedCrowded(s, t, active, v, p, key);
    hide Sum;
  }

  /** With the largest partner full, the others fill the store and one more insertion takes from it. */
  lemma {:induction false} FillRest(s: Store, v: Text, storing: map<Text, Policy>)
    requires Valid(s) && s.maxEntries > 0 && TopFull(s, storing.Keys, v)
    ensures CanDisturb(s, storing)
    decreases s.maxEntries - s.total
  {
    var p := SomeRoom(s, storing.Keys);
    hide Consistent, CanDisturb, Sum;
    if s.total == s.maxEntries {
      Overflow(s, v, p, storing);
    } else {
      var t, key := FillOne(s, p, storing);
      ExtendedTopFull(s, t, storing.Keys, v, p, key);
      hide TopFull;
      FillRest(t, v, storing);
    }
  }

  lemma OnlyList(s: Store, v: Text)
    requires Consistent(s) && v in s.buckets && forall p :: p in s.buckets && p != v ==> s.buckets[p].lru == []
    ensures LenOf(s, v) == s.total
  {
    TotalIsSum(s);
    SumZero(Lens(s), s.buckets.Keys, {v});
    SumPick(Lens(s), {v}, v);
    assert {v} - {v} == {};
  }

  /** `v` fills the store, or fills its own list and leaves the rest to the others. */
  lemma {:induction false} FillTop(s: Store, v: Text, storing: map<Text, Policy>)
    requires Valid(s) && s.maxEntries > 0 && |storing| >= 2 && storing.Keys <= s.buckets.Keys && v in storing
    requires s.buckets[v].limit <= 0 || (Crowded(s, storing.Keys, v) && LenOf(s, v) <= s.buckets[v].limit)
    requires forall p :: p in s.buckets && p != v ==> s.buckets[p].lru == []
    ensures CanDisturb(s, storing)
    decreases s.maxEntries - s.total
  {
    OnlyList(s, v);
    hide Consistent, CanDisturb, Sum;
    if s.total == s.maxEntries {
      if storing.Keys - {v} == {} {
        SubsetCard(storing.Keys, {v});
      }
      var p :| p in storing.Keys - {v};
      Overflow(s, v, p, storing);
    } else if Room(s, v) {
      var t, key := FillOne(s, v, storing);
      if s.buckets[v].limit > 0 {
        ExtendedCrowded(s, t, storing.Keys, v, v, key);
      }
      FillTop(t, v, storing);
    } else {
      FillRest(s, v, storing);
    }
  }

  lemma LargestCap(s: Store, ps: set<Text>, p: Text) returns (v: Text)
    requires p in ps && ps <= s.buckets.Keys
    ensures v in ps && forall q :: q in ps ==> s.buckets[q].limit <= s.buckets[v].limit
    decreases |ps|
  {
    if ps - {p} == {} {
      assert ps == {p};
      v := p;
    } else {
      var q :| q in ps - {p};
      v := LargestCap(s, ps - {q}, p);
      if s.buckets[q].limit > s.buckets[v].limit {
        v := q;
      }
    }
  }

  lemma CapsDisturb(s: Store, storing: map<Text, Policy>)
    requires Valid(s) && s.pseudonyms == map[] && storing.Keys <= s.buckets.Keys
    requires s.maxEntries > 0 && |storing| >= 2
    requires (exists p :: p in storing && s.buckets[p].limit <= 0) || Sum(Limits(s), storing.Keys) > s.maxEntries
    ensures CanDisturb(s, storing)
  {
    forall p | p in s.buckets
      ensures s.buckets[p].lru == []
    {
      EmptyLists(s, p);
    }
    hide Consistent, CanDisturb, Sum;
    var v;
    if p :| p in storing && s.buckets[p].limit <= 0 {
      v := p;
    } else {
      var p :| p in storing;
      v := LargestCap(s, storing.Keys, p);
    }
    FillTop(s, v, storing);
  }

  lemma EmptyLists(s: Store, p: Text)
    requires Consistent(s) && s.pseudonyms == map[] && p in s.buckets
    ensures s.buckets[p].lru == []
  {
    assert Lists(s.pseudonyms, p, s.buckets[p].lru);
    NoDupCount(s.buckets[p].lru, {});
  }

  /**
   * From an empty store, over all runs and map orders, no partner's insertion takes another's mapping
   * away exactly when the store-wide cap is off, at most one partner stores anything, or every
   * partner that does has a positive cap and these together fit the store-wide cap.
   */
  lemma SeparateExactly(s: Store, storing: map<Text, Policy>)
    requires Valid(s) && s.pseudonyms == map[] && storing.Keys <= s.buckets.Keys
    ensures AlwaysSeparate(s, storing) <==>
              || s.maxEntries <= 0 || |storing| <= 1
              || ((forall p :: p in storing ==> s.buckets[p].limit > 0) && Sum(Limits(s), storing.Keys) <= s.maxEntries)
  {
    hide Consistent, Isolated, Sum, CanDisturb;
    if s.maxEntries <= 0 || |storing| <= 1 {
      CapsSeparate(s, storing);
    } else if (forall p :: p in storing ==> s.buckets[p].limit > 0) && Sum(Limits(s), storing.Keys) <= s.maxEntries {
      LimitsIsolate(s, storing.Keys);
      CapsSeparate(s, storing);
    } else {
      CapsDisturb(s, storing);
      DisturbedIsNotSeparate(s, storing);
    }
  }

  lemma DisturbedIsNotSeparate(s: Store, storing: map<Text, Policy>)
    requires Valid(s) && CanDisturb(s, storing)
    ensures !AlwaysSeparate(s, storing)
  {
    hide RunOk, StoreAfter, AllUse, Separate;
  }

  // ---------------------------------------------------------------- the caps Init sets up

  lemma StatefulLimits(s: Store, partners: seq<Partner>)
    requires Distinct(partners) && Limited(s, partners)
    requires forall p :: p in partners && p.mode == Stateful ==> p.maxEntries >= 0
    ensures Sum(Limits(s), StatefulNames(partners)) == StatefulTotal(partners)
  {
    assert forall p :: p in partners && p.mode in {Stateful} ==> Limits(s)(p.name) == p.maxEntries;
    hide Limited, Distinct;
    TotalIsSumOfLimits(partners, {Stateful}, Limits(s));
  }

  lemma CapsPositive(s: Store, partners: seq<Partner>)
    requires Limited(s, partners)
    ensures StatefulNames(partners) <= s.buckets.Keys
    ensures (forall n :: n in StatefulNames(partners) ==> s.buckets[n].limit > 0) <==> EachPositive(partners)
  {
    if p :| p in partners && p.mode == Stateful && p.maxEntries <= 0 {
      assert p.name in StatefulNames(partners);
    }
  }

  /** Every partner that hides statefully has a positive maximum. */
  predicate EachPositive(partners: seq<Partner>) {
    forall p :: p in partners && p.mode == Stateful ==> p.maxEntries > 0
  }

  /** The partners that store pseudonyms are those that hide statefully, whatever their policies say besides. */
  ghost predicate Storing(partners: seq<Partner>, storing: map<Text, Policy>) {
    storing.Keys == StatefulNames(partners)
  }

  /** When the maxima are positive and fit the store-wide cap, each partner stays within its own on every run. */
  lemma InitIsolates(s: Store, partners: seq<Partner>, ops: seq<Timed>, now: int)
    requires Valid(s) && Distinct(partners) && Limited(s, partners)
    requires EachPositive(partners) && (s.maxEntries <= 0 || StatefulTotal(partners) <= s.maxEntries)
    requires RunOk(s, ops, now) && AllStoredBy(ops, StatefulNames(partners))
    ensures Isolated(StoreAfter(s, ops, now), StatefulNames(partners))
  {
    CapsPositive(s, partners);
    StatefulLimits(s, partners);
    hide Consistent, RunOk, StoreAfter, AllStoredBy, NamesOf, TotalOf, Sum, Limits;
    LimitsIsolate(s, StatefulNames(partners));
    RunKeepsIsolated(s, ops, now, StatefulNames(partners));
  }

  /** The same in terms of the configuration, with or without a configured store-wide cap. */
  lemma InitSeparatesExactly(s: Store, partners: seq<Partner>, storing: map<Text, Policy>)
    requires Valid(s) && Distinct(partners) && Limited(s, partners) && Storing(partners, storing)
    ensures AlwaysSeparate(s, storing) <==>
              || s.maxEntries <= 0 || |StatefulNames(partners)| <= 1
              || (EachPositive(partners) && StatefulTotal(partners) <= s.maxEntries)
  {
    CapsPositive(s, partners);
    hide AlwaysSeparate, Consistent, Limited, NamesOf, TotalOf, Sum, Limits;
    SeparateExactly(s, storing);
    assert |storing| == |storing.Keys|;
    if EachPositive(partners) {
      StatefulLimits(s, partners);
    }
  }

  /**
   * With the derived store-wide cap the partners are kept apart exactly when one that hides asks for no
   * cap, none has an allowance, at most one stores, or each that stores has an allowance.
   */
  lemma DerivedCapsSeparateExactly(s: Store, partners: seq<Partner>, storing: map<Text, Policy>)
    requires Valid(s) && Distinct(partners) && Limited(s, partners) && Storing(partners, storing)
    requires s.maxEntries == if Unlimited(partners) then 0 else HidingTotal(partners)
    ensures AlwaysSeparate(s, storing) <==>
              || Unlimited(partners) || HidingTotal(partners) == 0 || |StatefulNames(partners)| <= 1
              || EachPositive(partners)
  {
    InitSeparatesExactly(s, partners, storing);
    hide AlwaysSeparate, Consistent, Limited, NamesOf;
    if !Unlimited(partners) {
      TotalsCompare(partners);
    }
  }

  lemma {:induction false} TotalsCompare(partners: seq<Partner>)
    requires !Unlimited(partners)
    ensures 0 <= StatefulTotal(partners) <= HidingTotal(partners)
  {
    if partners != [] {
      TotalsCompare(partners[..|partners| - 1]);
    }
  }

  const DEFAULT_MAX_ENTRIES := 100000

  /** Loading a configuration fills in a maximum left at zero. */
  function Loaded(partners: seq<Partner>): (loaded: seq<Partner>)
    ensures |loaded| == |partners|
    ensures forall i :: 0 <= i < |partners| && partners[i].maxEntries == 0 ==> loaded[i].maxEntries == 100_000
  {
    seq(|partners|, i requires 0 <= i < |partners| =>
      if partners[i].maxEntries == 0 then partners[i].(maxEntries := DEFAULT_MAX_ENTRIES) else partners[i])
  }

  /** So the caps derived from a loaded configuration always keep the partners apart. */
  lemma LoadedCapsSeparate(s: Store, partners: seq<Partner>, storing: map<Text, Policy>)
    requires Valid(s) && Distinct(Loaded(partners)) && Limited(s, Loaded(partners))
             && Storing(Loaded(partners), storing)
    requires s.maxEntries == if Unlimited(Loaded(partners)) then 0 else HidingTotal(Loaded(partners))
    ensures AlwaysSeparate(s, storing)
  {
    DerivedCapsSeparateExactly(s, Loaded(partners), storing);
    hide AlwaysSeparate, Consistent, Limited, TotalOf, NamesOf;
    assert forall p :: p in Loaded(partners) ==> p.maxEntries != 0;
    assert !Unlimited(Loaded(partners)) ==> EachPositive(Loaded(partners));
  }
}
