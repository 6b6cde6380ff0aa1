/**
 * How topology hiding chooses an outward identity, and the way back: what a partner sends in
 * Destination-Host is translated to the host that was masked.
 */
module HidingStore {
  import opened Bytes
  import opened Names
  import opened PseudonymStore
  import opened StoreRefinement
  import opened Hiding

  const DEFAULT_TTL := 1_800_000_000_000    // thirty minutes in nanoseconds

  function Ttl(p: Policy): int { if p.ttl > 0 then p.ttl else DEFAULT_TTL }

  /** The label is the hexadecimal form of random bytes. */
  predicate IsLabel(hex: Text) { hex != [] && forall i :: 0 <= i < |hex| ==> 48 <= hex[i] <= 57 || 97 <= hex[i] <= 102 }

  type Label = t: Text | IsLabel(t) witness [48]

  function NewPseudonym(p: Policy, hex: Text): Text {
    Normalize(p.prefix) + hex + if p.realm == [] then [] else [DOT] + Normalize(p.realm)
  }

  /** One call of mask: `hex` is what the random source gave, `victims` the eviction choices. */
  ghost predicate MaskStep(p: Policy, partner: Text, s: Store, host: Text, session: Text, now: int,
                           hex: Option<Text>, victims: seq<Text>, r: Store, mask: Text)
    requires Consistent(s)
  {
    if !p.stateful then r == s && mask == p.edge
    else
      var (f, found) := FindPseudonym(s, host, session, now);
      if found.Some? then r == f && mask == found.value
      else if hex == None then r == f && mask == p.edge
      else
        var e := MakeEntry(partner, NewPseudonym(p, hex.value), host, session, now + Ttl(p));
        && mask == NewPseudonym(p, hex.value)
        && Consistent(f) && Legal(Trimmed(f, e), victims) && r == Put(f, e, victims)
  }

  /** restoreDestinationHost on the data of the AVP. */
  function Restore(s: Store, data: Text, now: int): (Store, Option<Text>) {
    if Normalize(data) == [] then (s, None) else FindRealHost(s, Normalize(data), now)
  }

  // ---------------------------------------------------------------- the form of names

  lemma {:induction false} TrimRightOnto(l: Text, x: Text)
    requires l != [] && !IsSpace(l[|l| - 1])
    ensures TrimRight(l + x) == l + TrimRight(x)
  {
    if x == [] {
      assert l + x == l;
    } else {
      assert (l + x)[..|l + x| - 1] == l + x[..|x| - 1];
      if IsSpace(x[|x| - 1]) {
        TrimRightOnto(l, x[..|x| - 1]);
      }
    }
  }

  predicate Solid(l: Text) {
    && l != [] && !IsSpace(l[0]) && !IsSpace(l[|l| - 1]) && l[|l| - 1] != DOT && Lower(l) == l
  }

  /** Behind a solid label only the rest of a name is subject to trimming. */
  lemma NormalizeOnto(l: Text, x: Text)
    requires Solid(l) && (x == [] || x[0] == DOT)
    ensures Normalize(l + x) == l + Normalize(x)
    ensures Normalize(x) == [] || Normalize(x)[0] == DOT
  {
    TrimRightOnto(l, x);
    TrimRightFirst(x);
    NoLeadingSpace(l + x);
    NoLeadingSpace(x);
    hide TrimLeft, TrimRight;
    var y := TrimRight(x);
    TrimDotOnto(l, y);
    hide TrimDot;
    LowerOnto(l, TrimDot(y));
    hide Lower;
  }

  lemma NoLeadingSpace(s: Text)
    ensures s == [] || !IsSpace(s[0]) ==> TrimLeft(s) == s
  {
  }

  lemma TrimDotOnto(l: Text, y: Text)
    requires l != [] && l[|l| - 1] != DOT
    ensures TrimDot(l + y) == l + TrimDot(y)
    ensures TrimDot(y) == [] || TrimDot(y)[0] == y[0]
  {
  }

  lemma LowerOnto(l: Text, z: Text)
    requires Lower(l) == l
    ensures Lower(l + z) == l + Lower(z)
    ensures z != [] && z[0] == DOT ==> Lower(z)[0] == DOT
  {
    assert Lower(l + z) == Lower(l) + Lower(z);
  }

  lemma LabelIsSolid(p: Policy, hex: Text)
    requires IsLabel(hex)
    ensures Solid(Normalize(p.prefix) + hex)
  {
    NormalizedStart(p.prefix);
    hide Normalize;
    var l := Normalize(p.prefix) + hex;
    assert Lower(hex) == hex;
    assert l[|l| - 1] == hex[|hex| - 1];
    assert Lower(l) == Lower(Normalize(p.prefix)) + Lower(hex);
  }

  /** The realms under which an issued pseudonym is still found after the second normalisation. */
  predicate RealmIsStable(p: Policy) { p.realm == [] || NormalForm(Normalize([DOT] + Normalize(p.realm))) }

  /** The key a pseudonym is stored under is in normal form exactly under such a realm. */
  lemma KeyIsNormalExactly(p: Policy, hex: Text)
    requires IsLabel(hex)
    ensures NormalForm(Normalize(NewPseudonym(p, hex))) <==> RealmIsStable(p)
  {
    LabelIsSolid(p, hex);
    var l := Normalize(p.prefix) + hex;
    var x := if p.realm == [] then [] else [DOT] + Normalize(p.realm);
    assert NewPseudonym(p, hex) == l + x;
    NormalizeOnto(l, x);
    NormalizeOnto(l, Normalize(x));
    if p.realm == [] {
      assert Normalize([]) == [];
    }
    hide Normalize;
    var y, z := Normalize(x), Normalize(Normalize(x));
    if l + z == l + y {
      assert z == (l + z)[|l|..] && y == (l + y)[|l|..];
    }
  }

  /**
   * An issued identity is the normal prefix and the label, and lies in the pseudonym realm if there is one;
   * of two labels of one length only equal ones give the same key.
   */
  lemma IssuedName(p: Policy, hex: Label, other: Label)
    requires |hex| == |other|
    ensures Normalize(p.prefix) + hex <= NewPseudonym(p, hex)
    ensures p.realm != [] ==> HasSuffix(NewPseudonym(p, hex), [46] + Normalize(p.realm))
    ensures Normalize(NewPseudonym(p, hex)) == Normalize(NewPseudonym(p, other)) <==> hex == other
  {
    LabelIsSolid(p, hex);
    LabelIsSolid(p, other);
    var x := if p.realm == [] then [] else [DOT] + Normalize(p.realm);
    var l, m := Normalize(p.prefix) + hex, Normalize(p.prefix) + other;
    assert NewPseudonym(p, hex) == l + x && NewPseudonym(p, other) == m + x;
    NormalizeOnto(l, x);
    NormalizeOnto(m, x);
    hide Normalize;
    if l + Normalize(x) == m + Normalize(x) {
      assert l == (l + Normalize(x))[..|l|] == m;
      assert hex == l[|Normalize(p.prefix)|..] == other;
    }
  }

  // ---------------------------------------------------------------- entries remember their host

  /** The entry was stored for its value in some session, and hosts contain no bar. */
  ghost predicate WellNamed(e: Entry) { BAR !in e.value && exists session :: e.alias == ForwardKey(e.value, session) }

  ghost predicate AllNamed(s: Store) { forall k :: k in s.pseudonyms ==> WellNamed(s.pseudonyms[k]) }

  // ---------------------------------------------------------------- what a run leaves in the store

  /** An entry as masking makes it, for a host without a bar and under a stable realm. */
  ghost predicate Genuine(e: Entry) {
    exists p: Policy, hex: Label, host, session, t ::
      RealmIsStable(p) && BAR !in host && e == MakeEntry(e.partner, NewPseudonym(p, hex), host, session, t)
  }

  ghost predicate AllGenuine(s: Store) { forall k :: k in s.pseudonyms ==> Genuine(s.pseudonyms[k]) }

  ghost predicate PutsGenuine(ops: seq<Timed>) {
    forall i :: 0 <= i < |ops| && ops[i].op.PutOp? ==> Genuine(ops[i].op.entry)
  }

  lemma GenuineEntry(e: Entry)
    requires Genuine(e)
    ensures WellNamed(e) && NormalForm(e.key) && e.key != []
  {
    hide Normalize, NewPseudonym, RealmIsStable, ForwardKey, NormalForm;
    var p: Policy, hex: Label, host, session, t :|
      RealmIsStable(p) && BAR !in host && e == MakeEntry(e.partner, NewPseudonym(p, hex), host, session, t);
    KeyIsNormalExactly(p, hex);
    KeyIsSomething(p, hex);
  }

  lemma GenuineAreNamed(s: Store)
    requires AllGenuine(s)
    ensures AllNamed(s) && forall k :: k in s.pseudonyms ==>
              NormalForm(s.pseudonyms[k].key) && s.pseudonyms[k].key != []
  {
    hide Genuine, WellNamed, NormalForm;
    forall k | k in s.pseudonyms
      ensures WellNamed(s.pseudonyms[k]) && NormalForm(s.pseudonyms[k].key) && s.pseudonyms[k].key != []
    {
      GenuineEntry(s.pseudonyms[k]);
    }
  }

  /** Every operation of the store keeps its entries genuine, if what is put is. */
  lemma StepKeepsGenuine(s: Store, o: Timed)
    requires Valid(s) && CanRun(s, o.op) && AllGenuine(s) && (o.op.PutOp? ==> Genuine(o.op.entry))
    ensures AllGenuine(StoreStep(s, o).0)
  {
    hide Consistent, Genuine, Legal, Trimmed, Put, FindPseudonym, FindRealHost, Sweep;
    match o.op
    case PutOp(e, victims) => PutAddsOne(s, e, victims);
    case AskPseudonym(h, session) => LookupsAddNothing(s, h, session, o.now);
    case AskRealHost(p) => LookupsAddNothing(s, p, [], o.now);
    case SweepOp => SweepAddsNothing(s, o.now);
    case _ =>
  }

  /** And so does every run: each alias tells the host stored, and each key is in normal form. */
  lemma {:induction false} RunKeepsGenuine(s: Store, ops: seq<Timed>, now: int)
    requires Valid(s) && RunOk(s, ops, now) && PutsGenuine(ops) && AllGenuine(s)
    ensures AllGenuine(StoreAfter(s, ops, now))
    decreases |ops|
  {
    hide AllGenuine, Genuine, Consistent, StoreStep, CanRun;
    if ops != [] {
      StepValid(s, ops[0]);
      StepKeepsGenuine(s, ops[0]);
      RunKeepsGenuine(StoreStep(s, ops[0]).0, ops[1..], ops[0].now);
    }
  }

  /** One mask step keeps the store valid and genuine. */
  lemma MaskStepKeeps(p: Policy, partner: Text, s: Store, host: Text, session: Text, now: int,
                      hex: Option<Label>, victims: seq<Text>, r: Store, mask: Text)
    requires Valid(s) && MaskStep(p, partner, s, host, session, now, hex, victims, r, mask)
    ensures Valid(r)
    ensures AllGenuine(s) && RealmIsStable(p) && BAR !in host ==> AllGenuine(r)
  {
    hide FindPseudonym, Put, Legal, Trimmed, Consistent, Genuine, NewPseudonym, RealmIsStable, MakeEntry;
    var f := FindPseudonym(s, host, session, now).0;
    LookupsValid(s, host, session, now);
    LookupsAddNothing(s, host, session, now);
    if p.stateful && FindPseudonym(s, host, session, now).1 == None && hex.Some? {
      var e := MakeEntry(partner, NewPseudonym(p, hex.value), host, session, now + Ttl(p));
      PutValid(f, e, victims);
      PutAddsOne(f, e, victims);
      if RealmIsStable(p) && BAR !in host {
        MadeEntryIsGenuine(p, partner, hex.value, host, session, now + Ttl(p));
      }
    }
  }

  lemma MadeEntryIsGenuine(p: Policy, partner: Text, hex: Label, host: Text, session: Text, t: int)
    requires RealmIsStable(p) && BAR !in host
    ensures Genuine(MakeEntry(partner, NewPseudonym(p, hex), host, session, t))
  {
    hide NewPseudonym, RealmIsStable;
    var e := MakeEntry(partner, NewPseudonym(p, hex), host, session, t);
    assert e == MakeEntry(e.partner, NewPseudonym(p, hex), host, session, t);
  }

  // ---------------------------------------------------------------- round trip

  /** The key under which the identity issued by a mask step is stored. */
  function IssuedKey(s: Store, host: Text, session: Text, now: int, mask: Text): Text {
    if FindPseudonym(s, host, session, now).1.Some? then mask else Normalize(mask)
  }

  /** What is stored under that key right after a mask step, unless its own eviction pass took it. */
  lemma IssuedEntry(p: Policy, partner: Text, s: Store, host: Text, session: Text, now: int,
                    hex: Option<Text>, victims: seq<Text>, r: Store, mask: Text)
    requires Valid(s) && AllNamed(s) && BAR !in host && p.stateful
    requires MaskStep(p, partner, s, host, session, now, hex, victims, r, mask)
    requires IssuedKey(s, host, session, now, mask) in r.pseudonyms
    requires FindPseudonym(s, host, session, now).1.Some? || hex.Some?
    ensures var e := r.pseudonyms[IssuedKey(s, host, session, now, mask)];
            && Normalize(e.value) == Normalize(host)
            && (FindPseudonym(s, host, session, now).1 == None ==>
                  e.value == host && e.expiresAt == now + if p.ttl > 0 then p.ttl else 30 * 60 * 1_000_000_000)
  {
    var (f, found) := FindPseudonym(s, host, session, now);
    if found.Some? {
      FoundEntry(s, host, session, now);
    } else {
      var e := MakeEntry(partner, NewPseudonym(p, hex.value), host, session, now + Ttl(p));
      PutAddsOne(f, e, victims);
    }
  }

  lemma FoundEntry(s: Store, host: Text, session: Text, now: int)
    requires Consistent(s) && AllNamed(s) && BAR !in host && FindPseudonym(s, host, session, now).1.Some?
    ensures var (f, found) := FindPseudonym(s, host, session, now);
            found.value in f.pseudonyms && Normalize(f.pseudonyms[found.value].value) == Normalize(host)
  {
    hide ListsOk, Normalize, WellNamed;
    var a := ForwardKey(host, session);
    var e := s.pseudonyms[s.forward[a]];
    assert e.alias == a && WellNamed(e);
    AliasTells(e, host, session);
  }

  lemma AliasTells(e: Entry, host: Text, session: Text)
    requires WellNamed(e) && BAR !in host && e.alias == ForwardKey(host, session)
    ensures Normalize(e.value) == Normalize(host)
  {
    hide ForwardKey, Normalize;
    var other :| e.alias == ForwardKey(e.value, other);
    ForwardKeyTells(e.value, other, host, session);
  }

  /** A live entry stored under a key in normal form is found by every spelling of the key. */
  lemma StoredIsRestored(t: Store, k: Text, data: Text, later: int)
    requires Live(t.pseudonyms, k, later) && NormalForm(k) && k != [] && Normalize(data) == k
    ensures Restore(t, data, later).1 == Some(t.pseudonyms[k].value)
  {
    hide Normalize, Touch;
  }

  // ---------------------------------------------------------------- over whole runs

  /** No insertion of the run evicts the key or binds it anew. */
  ghost predicate Spares(s: Store, ops: seq<Timed>, now: int, k: Text)
    requires Valid(s) && RunOk(s, ops, now)
    decreases |ops|
  {
    ops == [] ||
    (StepValid(s, ops[0]);
     var r := StoreStep(s, ops[0]).0;
     && (ops[0].op.PutOp? ==> ops[0].op.entry.key != k && k in r.pseudonyms)
     && Spares(r, ops[1..], ops[0].now, k))
  }

  lemma LookupsKeepLive(s: Store, name: Text, session: Text, now: int, k: Text)
    requires Consistent(s) && Live(s.pseudonyms, k, now)
    ensures var r := FindPseudonym(s, name, session, now).0; k in r.pseudonyms && r.pseudonyms[k] == s.pseudonyms[k]
    ensures var r := FindRealHost(s, name, now).0; k in r.pseudonyms && r.pseudonyms[k] == s.pseudonyms[k]
  {
    hide Lists, Normalize, ForwardOk, Without;
  }

  lemma StepKeepsEntry(s: Store, o: Timed, k: Text)
    requires Valid(s) && CanRun(s, o.op) && Live(s.pseudonyms, k, o.now)
    requires o.op.PutOp? ==> o.op.entry.key != k && k in StoreStep(s, o).0.pseudonyms
    ensures k in StoreStep(s, o).0.pseudonyms && StoreStep(s, o).0.pseudonyms[k] == s.pseudonyms[k]
  {
    hide Consistent, Legal, Trimmed, Put, FindPseudonym, FindRealHost;
    match o.op
    case PutOp(e, victims) => PutAddsOne(s, e, victims);
    case AskPseudonym(h, session) => LookupsKeepLive(s, h, session, o.now, k);
    case AskRealHost(p) => LookupsKeepLive(s, p, [], o.now, k);
    case _ =>
  }

  lemma {:induction false} RunKeepsEntry(s: Store, ops: seq<Timed>, now: int, k: Text)
    requires Valid(s) && RunOk(s, ops, now) && Spares(s, ops, now, k) && k in s.pseudonyms
    requires forall i :: 0 <= i < |ops| ==> ops[i].now < s.pseudonyms[k].expiresAt
    ensures k in StoreAfter(s, ops, now).pseudonyms && StoreAfter(s, ops, now).pseudonyms[k] == s.pseudonyms[k]
    decreases |ops|
  {
    if ops != [] {
      StepValid(s, ops[0]);
      StepKeepsEntry(s, ops[0], k);
      hide Valid, CanRun, StoreStep;
      RunKeepsEntry(StoreStep(s, ops[0]).0, ops[1..], ops[0].now, k);
    }
  }

  /** An issued identity is the key it is stored under, up to normalisation. */
  lemma IssuedKeyIs(p: Policy, partner: Text, s: Store, host: Text, session: Text, now: int,
                    hex: Label, victims: seq<Text>, r: Store, mask: Text)
    requires Valid(s) && AllGenuine(s) && p.stateful && RealmIsStable(p)
    requires MaskStep(p, partner, s, host, session, now, Some(hex), victims, r, mask)
    ensures IssuedKey(s, host, session, now, mask) == Normalize(mask)
    ensures NormalForm(Normalize(mask)) && Normalize(mask) != []
  {
    if FindPseudonym(s, host, session, now).1.Some? {
      GenuineAreNamed(s);
      hide Normalize, AllGenuine, Lists, Genuine;
      assert s.pseudonyms[mask].key == mask;
    } else {
      hide Normalize, Consistent, Put, Legal, Trimmed, NewPseudonym;
      KeyIsNormalExactly(p, hex);
      KeyIsSomething(p, hex);
    }
  }

  lemma EntryIsRestored(p: Policy, partner: Text, s: Store, host: Text, session: Text, now: int,
                        hex: Label, victims: seq<Text>, r: Store, mask: Text, t: Store, data: Text, later: int)
    requires Valid(s) && AllGenuine(s) && BAR !in host && p.stateful && RealmIsStable(p)
    requires MaskStep(p, partner, s, host, session, now, Some(hex), victims, r, mask)
    requires var k := Normalize(mask);
             && k in r.pseudonyms && k in t.pseudonyms && t.pseudonyms[k] == r.pseudonyms[k]
                && later < r.pseudonyms[k].expiresAt
    requires AnyCase(data, mask)
    ensures Restores(t, data, later, host)
    ensures FindPseudonym(s, host, session, now).1 == None ==> Restore(t, data, later).1 == Some(host)
  {
    GenuineAreNamed(s);
    IssuedKeyIs(p, partner, s, host, session, now, hex, victims, r, mask);
    IssuedEntry(p, partner, s, host, session, now, Some(hex), victims, r, mask);
    NormalizeIgnoresCase(data, mask);
    hide Normalize, NormalForm, FindPseudonym, Consistent, MaskStep, Restore, AllGenuine, AllNamed;
    StoredIsRestored(t, Normalize(mask), data, later);
  }

  /** What comes back is translated to the host, up to normalisation. */
  predicate Restores(t: Store, data: Text, later: int, host: Text) {
    var answer := Restore(t, data, later).1; answer.Some? && Normalize(answer.value) == Normalize(host)
  }

  /** No insertion evicts the key or binds it anew, and the time stays short of the entry's deadline. */
  ghost predicate Outlives(r: Store, ops: seq<Timed>, now: int, k: Text, later: int)
    requires Valid(r) && RunOk(r, ops, now)
  {
    && k in r.pseudonyms && Spares(r, ops, now, k) && later < r.pseudonyms[k].expiresAt
    && forall i :: 0 <= i < |ops| ==> ops[i].now <= later
  }

  lemma Outlived(r: Store, ops: seq<Timed>, now: int, k: Text, later: int)
    requires Valid(r) && RunOk(r, ops, now) && Outlives(r, ops, now, k, later)
    ensures var t := StoreAfter(r, ops, now); k in t.pseudonyms && t.pseudonyms[k] == r.pseudonyms[k]
  {
    hide Consistent, RunOk, Spares, StoreAfter;
    RunKeepsEntry(r, ops, now, k);
  }

  /** Hide and restore from any store of genuine entries. */
  lemma MaskedIsRestoredFrom(p: Policy, partner: Text, s: Store, host: Text, session: Text, now: int,
                             hex: Label, victims: seq<Text>, r: Store, mask: Text, ops: seq<Timed>, data: Text,
                               later: int)
    requires Valid(s) && AllGenuine(s) && BAR !in host && p.stateful && RealmIsStable(p)
    requires MaskStep(p, partner, s, host, session, now, Some(hex), victims, r, mask)
    requires Valid(r) && RunOk(r, ops, now) && Outlives(r, ops, now, Normalize(mask), later)
             && AnyCase(data, mask)
    ensures Restores(StoreAfter(r, ops, now), data, later, host)
    ensures FindPseudonym(s, host, session, now).1 == None ==>
              Restore(StoreAfter(r, ops, now), data, later).1 == Some(host)
  {
    hide Genuine, AllGenuine, Consistent, MaskStep, Normalize, Restores, Restore, RunOk, StoreAfter, Spares,
         FindPseudonym, RealmIsStable;
    Outlived(r, ops, now, Normalize(mask), later);
    EntryIsRestored(p, partner, s, host, session, now, hex, victims, r, mask, StoreAfter(r, ops, now), data, later);
  }

  lemma RunFromEmpty(maxEntries: int, ops: seq<Timed>, now: int)
    requires RunOk(Empty(maxEntries), ops, now) && PutsGenuine(ops)
    ensures Valid(Empty(maxEntries)) && Valid(StoreAfter(Empty(maxEntries), ops, now))
            && AllGenuine(StoreAfter(Empty(maxEntries), ops, now))
  {
    assert AllGenuine(Empty(maxEntries));
    hide Genuine, AllGenuine, PutsGenuine, RunOk, StoreAfter;
    RunKeepsGenuine(Empty(maxEntries), ops, now);
  }

  /**
   * Hide and restore over whole runs: after any run from an empty store that puts genuine entries, an
   * identity issued for a host, in whatever letter case the partner sends it back, is translated to
   * that host up to normalisation, and to its very spelling when it was issued anew, after every run
   * that spares its entry and before the entry's deadline. (`r` is valid by `MaskStepKeeps`.)
   */
  lemma MaskedIsRestored(maxEntries: int, before: seq<Timed>, start: int,
                         p: Policy, partner: Text, host: Text, session: Text, now: int, hex: Label, victims: seq<Text>,
                         r: Store, mask: Text, after: seq<Timed>, data: Text, later: int)
    requires RunOk(Empty(maxEntries), before, start) && PutsGenuine(before)
    requires BAR !in host && p.stateful && RealmIsStable(p)
    requires MaskStep(p, partner, StoreAfter(Empty(maxEntries), before, start), host, session, now, Some(hex),
                      victims, r, mask)
    requires Valid(r) && RunOk(r, after, now) && Outlives(r, after, now, Normalize(mask), later)
             && AnyCase(data, mask)
    ensures Restores(StoreAfter(r, after, now), data, later, host)
    ensures FindPseudonym(StoreAfter(Empty(maxEntries), before, start), host, session, now).1 == None ==>
              Restore(StoreAfter(r, after, now), data, later).1 == Some(host)
  {
    hide *;
    RunFromEmpty(maxEntries, before, start);
    MaskedIsRestoredFrom(p, partner, StoreAfter(Empty(maxEntries), before, start), host, session, now, hex, victims,
                         r, mask,
                         after, data, later);
  }

  /**
   * A new pseudonym survives its own insertion when the store-wide cap covers the partners holding
   * entries, and is then restored to the very host after every run that spares it, before its
   * deadline, under a stable realm.
   */
  lemma HiddenThenRestored(p: Policy, partner: Text, f: Store, host: Text, session: Text, now: int, hex: Text,
                           victims: seq<Text>, ops: seq<Timed>, data: Text, later: int)
    requires Valid(f) && IsLabel(hex) && RealmIsStable(p)
    requires later < now + if p.ttl > 0 then p.ttl else 30 * 60 * 1_000_000_000
    requires var e := MakeEntry(partner, NewPseudonym(p, hex), host, session, now + Ttl(p));
             && (f.maxEntries <= 0 || |Holders(Trimmed(f, e))| <= f.maxEntries)
             && Legal(Trimmed(f, e), victims)
             && (PutValid(f, e, victims);
                 RunOk(Put(f, e, victims), ops, now) && Spares(Put(f, e, victims), ops, now, e.key))
    requires forall i :: 0 <= i < |ops| ==> ops[i].now <= later
    requires AnyCase(data, NewPseudonym(p, hex))
    ensures var e := MakeEntry(partner, NewPseudonym(p, hex), host, session, now + Ttl(p));
            (PutValid(f, e, victims);
             Restore(StoreAfter(Put(f, e, victims), ops, now), data, later).1 == Some(host))
  {
    var mask := NewPseudonym(p, hex);
    var e := MakeEntry(partner, mask, host, session, now + Ttl(p));
    hide Consistent, Trimmed, Legal, Put, Normalize, NewPseudonym, RunOk, Spares, StoreAfter, Restore, RealmIsStable;
    SurvivesExactly(f, e);
    PutValid(f, e, victims);
    KeyIsNormalExactly(p, hex);
    KeyIsSomething(p, hex);
    NormalizeIgnoresCase(data, mask);
    var r := Put(f, e, victims);
    assert e.key in r.pseudonyms && r.pseudonyms[e.key] == e;
    hide NormalForm, Valid;
    RunKeepsEntry(r, ops, now, e.key);
    StoredIsRestored(StoreAfter(r, ops, now), e.key, data, later);
  }

  lemma KeyIsSomething(p: Policy, hex: Text)
    requires IsLabel(hex)
    ensures Normalize(NewPseudonym(p, hex)) != []
  {
    LabelIsSolid(p, hex);
    var l := Normalize(p.prefix) + hex;
    var x := if p.realm == [] then [] else [DOT] + Normalize(p.realm);
    assert NewPseudonym(p, hex) == l + x;
    NormalizeOnto(l, x);
    hide Normalize;
  }

  /**
   * A pseudonym just issued is found again exactly under a stable realm: the way back normalises
   * twice, and normalising strips only one dot.
   */
  lemma RestoredExactly(p: Policy, hex: Text, t: Store, data: Text, later: int)
    requires IsLabel(hex) && AnyCase(data, NewPseudonym(p, hex))
    requires var k := Normalize(NewPseudonym(p, hex));
             && Live(t.pseudonyms, k, later) && (Normalize(k) != k ==> Normalize(k) !in t.pseudonyms)
    ensures Restore(t, data, later).1.Some? <==> RealmIsStable(p)
  {
    var k := Normalize(NewPseudonym(p, hex));
    KeyIsNormalExactly(p, hex);
    NormalizeIgnoresCase(data, NewPseudonym(p, hex));
    LabelIsSolid(p, hex);
    var l := Normalize(p.prefix) + hex;
    var x := if p.realm == [] then [] else [DOT] + Normalize(p.realm);
    assert NewPseudonym(p, hex) == l + x;
    NormalizeOnto(l, x);
    hide Normalize;
  }

  /** A realm outside the condition exists: one that ends in three dots. */
  lemma UnstableRealm()
    ensures exists p: Policy :: !RealmIsStable(p)
  {
    var realm: Text := [97, DOT, DOT, DOT];
    var p := Policy(true, [], [], realm, 0, true, true, true, true, true, true, []);
    assert TrimSpace(realm) == realm;
    assert Normalize(realm) == [97, DOT, DOT];
    var x: Text := [DOT, 97, DOT, DOT];
    assert [DOT] + Normalize(realm) == x;
    assert Normalize(x) == [DOT, 97, DOT];
    assert Normalize([DOT, 97, DOT]) == [DOT, 97];
    assert !RealmIsStable(p);
  }
}
