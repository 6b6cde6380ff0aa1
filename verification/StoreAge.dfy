/**
 * How long a pseudonym is kept in an isolated store: what an entry's place in its partner's list of
 * least recently used keys says about the insertions it survives.
 */
module StoreAge {
  import opened Bytes
  import opened Names
  import opened PseudonymStore
  import opened StoreRefinement
  import opened Hiding
  import opened HidingStore
  import opened StoreIsolation

  // ---------------------------------------------------------------- places in a list

  /** How many keys of the list were used after this one. */
  function Age(q: seq<Text>, k: Text): nat {
    if q == [] then 0 else if q[0] == k then |q| - 1 else Age(q[1..], k)
  }

  lemma {:induction false} AgeAppend(q: seq<Text>, k: Text, x: Text)
    requires k in q
    ensures Age(q + [x], k) == Age(q, k) + 1
  {
    assert (q + [x])[0] == q[0];
    if q[0] != k {
      assert (q + [x])[1..] == q[1..] + [x];
      AgeAppend(q[1..], k, x);
    }
  }

  lemma {:induction false} AgeLast(q: seq<Text>, k: Text)
    requires NoDup(q) && q != [] && q[|q| - 1] == k
    ensures Age(q, k) == 0
  {
    if |q| > 1 {
      AgeLast(q[1..], k);
    }
  }

  lemma {:induction false} AgeWithout(q: seq<Text>, k: Text, x: Text)
    requires k in q && x != k
    ensures k in Without(q, x) && Age(Without(q, x), k) <= Age(q, k)
  {
    if q[0] == x {
    } else if q[0] == k {
      WithoutShorter(q[1..], x);
    } else {
      AgeWithout(q[1..], k, x);
      assert Without(q, x)[1..] == Without(q[1..], x);
    }
  }

  lemma {:induction false} WithoutShorter(q: seq<Text>, x: Text)
    ensures |Without(q, x)| <= |q|
  {
    if q != [] {
      WithoutShorter(q[1..], x);
    }
  }

  lemma {:induction false} AgeKeepLive(m: map<Text, Entry>, q: seq<Text>, now: int, k: Text)
    requires k in q && Live(m, k, now)
    ensures k in KeepLive(m, q, now) && Age(KeepLive(m, q, now), k) <= Age(q, k)
  {
    hide Live;
    if q[0] == k {
      KeepLiveShorter(m, q[1..], now);
    } else {
      AgeKeepLive(m, q[1..], now, k);
      if Live(m, q[0], now) {
        assert KeepLive(m, q, now)[1..] == KeepLive(m, q[1..], now);
      } else {
        assert KeepLive(m, q, now) == KeepLive(m, q[1..], now);
      }
    }
  }

  // ---------------------------------------------------------------- what a step does to an entry's age

  /** The age of a stored key in its partner's list. */
  function AgeIn(s: Store, k: Text): nat
    requires k in s.pseudonyms
  {
    Age(BucketOf(s, s.pseudonyms[k].partner).lru, k)
  }

  lemma IsListed(s: Store, k: Text)
    requires Consistent(s) && k in s.pseudonyms
    ensures var p := s.pseudonyms[k].partner; p in s.buckets && NoDup(s.buckets[p].lru) && k in s.buckets[p].lru
  {
    assert Lists(s.pseudonyms, s.pseudonyms[k].partner, s.buckets[s.pseudonyms[k].partner].lru);
  }

  /** The entry stays as it is and where it is, under the same cap, and at most this much older. */
  ghost predicate Ageing(s: Store, t: Store, k: Text, extra: nat)
    requires k in s.pseudonyms
  {
    && k in t.pseudonyms && t.pseudonyms[k] == s.pseudonyms[k]
    && BucketOf(t, s.pseudonyms[k].partner).limit == BucketOf(s, s.pseudonyms[k].partner).limit
    && AgeIn(t, k) <= AgeIn(s, k) + extra
  }

  /** The entry is of the same partner as this other one. */
  predicate Fellow(s: Store, k: Text, other: Text) {
    k in s.pseudonyms && other in s.pseudonyms && other != k && s.pseudonyms[other].partner == s.pseudonyms[k].partner
  }

  /** The step inserts an entry of the key's partner, or finds another one of that partner and so uses it. */
  predicate Ages(s: Store, o: Timed, k: Text) {
    match o.op
    case PutOp(e, _) => k in s.pseudonyms && e.partner == s.pseudonyms[k].partner
    case AskPseudonym(h, session) =>
      var found := FindPseudonym(s, h, session, o.now).1; found.Some? && Fellow(s, k, found.value)
    case AskRealHost(p) => FindRealHost(s, p, o.now).1.Some? && Fellow(s, k, Normalize(p))
    case _ => false
  }

  lemma RemoveAgeing(s: Store, k: Text, other: Text)
    requires Consistent(s) && k in s.pseudonyms && other in s.pseudonyms && other != k
    ensures Ageing(s, Remove(s, s.pseudonyms[other]), k, 0)
  {
    hide Remove, ListsOk, ForwardOk;
    IsListed(s, k);
    RemoveConsistent(s, other);
    AgeWithout(s.buckets[s.pseudonyms[k].partner].lru, k, other);
    hide Lists, NoDup;
  }

  lemma TouchAgeing(s: Store, k: Text, other: Text)
    requires Consistent(s) && k in s.pseudonyms && other in s.pseudonyms
    ensures Ageing(s, Touch(s, s.pseudonyms[other]), k, if Fellow(s, k, other) then 1 else 0)
  {
    IsListed(s, k);
    assert s.pseudonyms[other].key == other;
    var lru := s.buckets[s.pseudonyms[k].partner].lru;
    if other == k {
      WithoutSpec(lru, k);
      AgeLast(Without(lru, k) + [k], k);
    } else {
      AgeWithout(lru, k, other);
      AgeAppend(Without(lru, other), k, other);
    }
    hide Without, Age, Lists, NoDup;
  }

  lemma LookupsAgeing(s: Store, name: Text, session: Text, now: int, k: Text)
    requires Consistent(s) && Live(s.pseudonyms, k, now)
    ensures Ageing(s, FindPseudonym(s, name, session, now).0, k,
                   if Ages(s, Timed(AskPseudonym(name, session), now), k) then 1 else 0)
    ensures Ageing(s, FindRealHost(s, name, now).0, k, if Ages(s, Timed(AskRealHost(name), now), k) then 1 else 0)
  {
    hide ListsOk, Remove, Touch, Age;
    var a := ForwardKey(name, session);
    if a in s.forward {
      LookupAgeing(s, s.forward[a], now, k);
    }
    var x := Normalize(name);
    if x in s.pseudonyms {
      LookupAgeing(s, x, now, k);
    }
  }

  /** A look-up of `x` removes it if it is too old and uses it otherwise. */
  lemma LookupAgeing(s: Store, x: Text, now: int, k: Text)
    requires Consistent(s) && Live(s.pseudonyms, k, now) && x in s.pseudonyms
    ensures s.pseudonyms[x].expiresAt <= now ==> Ageing(s, Remove(s, s.pseudonyms[x]), k, 0)
    ensures s.pseudonyms[x].expiresAt > now ==>
              Ageing(s, Touch(s, s.pseudonyms[x]), k, if Fellow(s, k, x) then 1 else 0)
  {
    hide Consistent, Remove, Touch, Ageing;
    if s.pseudonyms[x].expiresAt <= now {
      RemoveAgeing(s, k, x);
    } else {
      TouchAgeing(s, k, x);
    }
  }

  lemma SweepAgeing(s: Store, now: int, k: Text)
    requires Consistent(s) && Live(s.pseudonyms, k, now)
    ensures Ageing(s, Sweep(s, now), k, 0)
  {
    IsListed(s, k);
    AgeKeepLive(s.pseudonyms, s.buckets[s.pseudonyms[k].partner].lru, now, k);
    hide Age, KeepLive, ListsOk;
  }

  /** A fresh insertion by the key's own partner pushes it back by one, and out only when it is the oldest of a full
      list. */
  lemma OwnAgeing(s: Store, e: Entry, k: Text)
    requires Consistent(s) && e.key !in s.pseudonyms && k in s.pseudonyms && s.pseudonyms[k].partner == e.partner
    requires AgeIn(s, k) + 1 < BucketOf(s, e.partner).limit && LenOf(s, e.partner) <= BucketOf(s, e.partner).limit
    ensures Ageing(s, Trimmed(s, e), k, 1)
  {
    hide Trimmed, Consistent;
    IsListed(s, k);
    TrimmedFresh(s, e);
    var lru := s.buckets[e.partner].lru;
    AgeAppend(lru, k, e.key);
    assert (lru + [e.key])[0] == lru[0];
    hide NoDup;
  }

  /** One by another partner leaves it where it is. */
  lemma OtherAgeing(s: Store, e: Entry, k: Text)
    requires Consistent(s) && e.key !in s.pseudonyms && k in s.pseudonyms && s.pseudonyms[k].partner != e.partner
    requires e.partner in s.buckets && 0 < s.buckets[e.partner].limit
             && LenOf(s, e.partner) <= s.buckets[e.partner].limit
    ensures Ageing(s, Trimmed(s, e), k, 0)
  {
    hide Trimmed, Consistent, Age;
    IsListed(s, k);
    TrimmedFresh(s, e);
    if s.buckets[e.partner].lru != [] {
      FirstIsOwn(s, e.partner);
    }
  }

  lemma PutAgeing(s: Store, active: set<Text>, e: Entry, victims: seq<Text>, k: Text)
    requires Valid(s) && Isolated(s, active) && e.partner in active && Legal(Trimmed(s, e), victims)
    requires k in s.pseudonyms && k != e.key
    requires s.pseudonyms[k].partner == e.partner ==> AgeIn(s, k) + 1 < s.buckets[e.partner].limit
    ensures Ageing(s, Put(s, e, victims), k, if s.pseudonyms[k].partner == e.partner then 1 else 0)
  {
    var c := Cleared(s, e.key);
    ClearedLighter(s, e.key);
    LighterIsolated(s, c, active);
    ClearedConsistent(s, e.key);
    ClearedAdded(s, e);
    PutKeepsIsolated(s, active, e, victims);
    if e.key in s.pseudonyms {
      RemoveAgeing(s, k, e.key);
    }
    assert Ageing(s, c, k, 0);
    hide Consistent, Added, EvictPartner, Cleared, EvictGlobal, Age;
    assert Trimmed(c, e) == Trimmed(s, e) && Put(s, e, victims) == Trimmed(s, e);
    if s.pseudonyms[k].partner == e.partner {
      OwnAgeing(c, e, k);
    } else {
      OtherAgeing(c, e, k);
    }
  }

  /** One step of an isolated store: an entry that is not bound anew, live and young enough stays. */
  lemma StepAgeing(s: Store, o: Timed, active: set<Text>, k: Text)
    requires Valid(s) && CanRun(s, o.op) && Isolated(s, active) && StoredBy(o.op, active)
    requires Live(s.pseudonyms, k, o.now) && (o.op.PutOp? ==> o.op.entry.key != k)
    requires Ages(s, o, k) ==> AgeIn(s, k) + 1 < BucketOf(s, s.pseudonyms[k].partner).limit
    ensures Ageing(s, StoreStep(s, o).0, k, if Ages(s, o, k) then 1 else 0)
  {
    hide Consistent, Ageing, Trimmed, Put, FindPseudonym, FindRealHost, Sweep, AgeIn, Fellow;
    match o.op
    case PutOp(e, victims) => PutAgeing(s, active, e, victims, k);
    case AskPseudonym(h, session) => LookupsAgeing(s, h, session, o.now, k);
    case AskRealHost(p) => LookupsAgeing(s, p, [], o.now, k);
    case SweepOp => SweepAgeing(s, o.now, k);
  }

  // ---------------------------------------------------------------- over a run

  /** How many steps of the run insert or use another entry of the key's partner. */
  ghost function AgedBy(s: Store, ops: seq<Timed>, now: int, k: Text): nat
    requires Valid(s) && RunOk(s, ops, now)
    decreases |ops|
  {
    if ops == [] then 0
    else
      StepValid(s, ops[0]);
      (if Ages(s, ops[0], k) then 1 else 0) + AgedBy(StoreStep(s, ops[0]).0, ops[1..], ops[0].now, k)
  }

  /** The run does not bind the key anew and stays short of its deadline. */
  predicate LeavesAlone(ops: seq<Timed>, k: Text, deadline: int) {
    forall i :: 0 <= i < |ops| ==> ops[i].now < deadline && (ops[i].op.PutOp? ==> ops[i].op.entry.key != k)
  }

  lemma AloneLater(ops: seq<Timed>, k: Text, deadline: int)
    requires ops != [] && LeavesAlone(ops, k, deadline)
    ensures LeavesAlone(ops[1..], k, deadline) && ops[0].now < deadline
            && (ops[0].op.PutOp? ==> ops[0].op.entry.key != k)
  {
  }

  /**
   * In an isolated store an entry is spared by every run with fewer insertions and uses of its partner's
   * other entries than its partner's cap leaves it, whatever the other partners do.
   */
  lemma {:induction false} YoungIsSpared(s: Store, ops: seq<Timed>, now: int, active: set<Text>, k: Text)
    requires Valid(s) && RunOk(s, ops, now) && AllStoredBy(ops, active) && Isolated(s, active)
    requires k in s.pseudonyms && LeavesAlone(ops, k, s.pseudonyms[k].expiresAt)
    requires AgeIn(s, k) + AgedBy(s, ops, now, k) < BucketOf(s, s.pseudonyms[k].partner).limit
    ensures Spares(s, ops, now, k)
    decreases |ops|
  {
    if ops != [] {
      StepValid(s, ops[0]);
      StepKeepsIsolated(s, ops[0], active);
      StepAgeing(s, ops[0], active, k);
      hide Isolated, Consistent, StoreStep, CanRun, AgeIn, Ages, StoredBy;
      AloneLater(ops, k, s.pseudonyms[k].expiresAt);
      hide LeavesAlone;
      YoungIsSpared(StoreStep(s, ops[0]).0, ops[1..], ops[0].now, active, k);
    }
  }

  /** The insertions by a partner in the run and the look-ups, which may be of its entries. */
  function Busy(ops: seq<Timed>, partner: Text): (n: nat)
    ensures n <= |ops|
  {
    if ops == [] then 0
    else
      var op := ops[0].op;
      Busy(ops[1..], partner)
        + if op.AskPseudonym? || op.AskRealHost? || (op.PutOp? && op.entry.partner == partner) then 1 else 0
  }

  /** A step leaves the entry as it is or takes it away, unless it binds the key anew. */
  lemma StepRebindsNot(s: Store, o: Timed, k: Text)
    requires Valid(s) && CanRun(s, o.op) && (o.op.PutOp? ==> o.op.entry.key != k)
    ensures k in StoreStep(s, o).0.pseudonyms ==>
              k in s.pseudonyms && StoreStep(s, o).0.pseudonyms[k] == s.pseudonyms[k]
  {
    hide Consistent, Legal, Trimmed, Put, FindPseudonym, FindRealHost, Sweep;
    match o.op
    case PutOp(e, victims) => PutAddsOne(s, e, victims);
    case AskPseudonym(h, session) => LookupsAddNothing(s, h, session, o.now);
    case AskRealHost(p) => LookupsAddNothing(s, p, [], o.now);
    case SweepOp => SweepAddsNothing(s, o.now);
    case _ =>
  }

  lemma {:induction false} AgedAtMost(s: Store, ops: seq<Timed>, now: int, k: Text, partner: Text, deadline: int)
    requires Valid(s) && RunOk(s, ops, now) && LeavesAlone(ops, k, deadline)
    requires k in s.pseudonyms ==> s.pseudonyms[k].partner == partner
    ensures AgedBy(s, ops, now, k) <= Busy(ops, partner)
    decreases |ops|
  {
    if ops != [] {
      StepValid(s, ops[0]);
      AloneLater(ops, k, deadline);
      StepRebindsNot(s, ops[0], k);
      hide Consistent, StoreStep, CanRun, LeavesAlone, FindPseudonym, FindRealHost, Fellow;
      AgedAtMost(StoreStep(s, ops[0]).0, ops[1..], ops[0].now, k, partner, deadline);
    }
  }

  lemma NewestIsYoung(s: Store, e: Entry)
    requires Consistent(s) && Newest(s, e)
    ensures e.key in s.pseudonyms && s.pseudonyms[e.key] == e && AgeIn(s, e.key) == 0
    ensures BucketOf(s, e.partner) == s.buckets[e.partner]
  {
    IsListed(s, e.key);
    AgeLast(s.buckets[e.partner].lru, e.key);
  }

  /** So the entry used last is spared by every run with fewer of these than its partner's cap. */
  lemma NewestIsSpared(s: Store, ops: seq<Timed>, now: int, active: set<Text>, e: Entry)
    requires Valid(s) && RunOk(s, ops, now) && AllStoredBy(ops, active) && Isolated(s, active)
    requires Newest(s, e) && LeavesAlone(ops, e.key, e.expiresAt) && Busy(ops, e.partner) < s.buckets[e.partner].limit
    ensures Spares(s, ops, now, e.key)
  {
    hide Isolated, Consistent, RunOk, Spares, AllStoredBy, LeavesAlone, AgedBy, Busy;
    NewestIsYoung(s, e);
    AgedAtMost(s, ops, now, e.key, e.partner, e.expiresAt);
    hide *;
    YoungIsSpared(s, ops, now, active, e.key);
  }

  /**
   * Hide and restore in an isolated store: a fresh pseudonym is restored to the very host it masks after
   * every run that has fewer insertions of its own partner and look-ups than the partner's cap, does not
   * draw the pseudonym again and ends before the deadline, under a stable realm.
   */
  lemma FreshIsRestored(p: Policy, active: set<Text>, f: Store, e: Entry, host: Text, session: Text, now: int,
                        hex: Label,
                        victims: seq<Text>, ops: seq<Timed>, data: Text, later: int)
    requires Valid(f) && Isolated(f, active) && e.partner in active && RealmIsStable(p)
    requires e == MaskEntry(p, e.partner, hex, host, session, now) && e.key !in f.pseudonyms
             && Legal(Trimmed(f, e), victims)
    requires Valid(Put(f, e, victims)) && RunOk(Put(f, e, victims), ops, now) && AllStoredBy(ops, active)
    requires Busy(ops, e.partner) < f.buckets[e.partner].limit && LeavesAlone(ops, e.key, later + 1)
    requires later < (now + if p.ttl > 0 then p.ttl else 30 * 60 * 1_000_000_000)
    requires AnyCase(data, NewPseudonym(p, hex))
    ensures Restore(StoreAfter(Put(f, e, victims), ops, now), data, later).1 == Some(host)
  {
    hide Isolated, Consistent, Trimmed, Legal, Put, RunOk, Spares, StoreAfter, Restore, AllStoredBy, Busy,
         NewPseudonym, Normalize, RealmIsStable, Newest, MakeEntry;
    DeadlineIs(p, e.partner, hex, host, session, now);
    FreshFits(f, active, e, victims);
    SurvivesAsNewest(f, active, e, victims);
    AloneLonger(ops, e.key, later + 1, e.expiresAt);
    assert forall i :: 0 <= i < |ops| ==> ops[i].now <= later;
    assert e == MakeEntry(e.partner, NewPseudonym(p, hex), host, session, now + Ttl(p)) && IsLabel(hex);
    hide *;
    NewestIsSpared(Put(f, e, victims), ops, now, active, e);
    HiddenThenRestored(p, e.partner, f, host, session, now, hex, victims, ops, data, later);
  }

  lemma DeadlineIs(p: Policy, partner: Text, hex: Label, host: Text, session: Text, now: int)
    ensures MaskEntry(p, partner, hex, host, session, now).expiresAt
            == now + if p.ttl > 0 then p.ttl else 30 * 60 * 1_000_000_000
  {
  }

  lemma AloneLonger(ops: seq<Timed>, k: Text, soon: int, deadline: int)
    requires LeavesAlone(ops, k, soon) && soon <= deadline
    ensures LeavesAlone(ops, k, deadline)
  {
  }

  lemma FreshFits(s: Store, active: set<Text>, e: Entry, victims: seq<Text>)
    requires Valid(s) && Isolated(s, active) && e.partner in active && e.key !in s.pseudonyms
    requires Legal(Trimmed(s, e), victims)
    ensures s.maxEntries <= 0 || |Holders(Trimmed(s, e))| <= s.maxEntries
  {
    hide Trimmed, Holders, ListsOk, ForwardOk;
    TrimmedIsolated(s, active, e);
    if s.maxEntries > 0 {
      IsolatedFits(Trimmed(s, e), active);
      HoldersHold(Trimmed(s, e));
    }
  }

  lemma SurvivesAsNewest(s: Store, active: set<Text>, e: Entry, victims: seq<Text>)
    requires Valid(s) && Isolated(s, active) && e.partner in active && e.key !in s.pseudonyms
    requires Legal(Trimmed(s, e), victims)
    ensures var r := Put(s, e, victims);
            Isolated(r, active) && Newest(r, e) && r.buckets[e.partner].limit == s.buckets[e.partner].limit
  {
    hide Trimmed, ListsOk, ForwardOk;
    PutKeepsIsolated(s, active, e, victims);
    TrimmedNewest(s, e);
    TrimmedFresh(s, e);
    hide Legal;
  }
}
