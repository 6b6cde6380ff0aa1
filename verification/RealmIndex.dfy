/**
 * The realm index of the edge registry: an exact map and a list of wildcard suffixes, longest
 * first, rebuilt from the configured partners, against the linear matcher over all patterns.
 */
module RealmIndex {
  import opened Bytes
  import opened Names

  const STAR_DOT: Text := [42, DOT]

  datatype Partner = Partner(name: Text, realms: seq<Text>)
  datatype Suffix = Suffix(suffix: Text, partner: nat)
  datatype Rule = Rule(pattern: Text, partner: nat)

  predicate Wildcard(p: Text) { STAR_DOT <= p }

  /** One normalised pattern against one normalised realm. */
  predicate Matches(key: Text, p: Text) { if Wildcard(p) then HasSuffix(key, p[1..]) else key == p }

  /**
   * A realm matches a pattern, each less one final dot, when they differ in letter case alone or when
   * the pattern starts with "*." (42, 46) and the realm ends like what follows the star, in any case.
   */
  lemma MatchesMeans(realm: Text, pattern: Text)
    ensures var r := if realm != [] && realm[|realm| - 1] == 46 then realm[..|realm| - 1] else realm;
            var p := if pattern != [] && pattern[|pattern| - 1] == 46 then pattern[..|pattern| - 1] else pattern;
            Matches(NormalizeRealm(realm), NormalizeRealm(pattern)) <==>
              if |p| >= 2 && p[0] == 42 && p[1] == 46
              then |p| - 1 <= |r| && AnyCase(r[|r| - (|p| - 1)..], p[1..])
              else AnyCase(r, p)
  {
    var (r, p) := (TrimDot(realm), TrimDot(pattern));
    LowerExactly(r, p);
    LowerWildcard(p);
    if Wildcard(Lower(p)) {
      LowerSuffix(r, p[1..]);
    }
    hide Lower, AnyCase, Wildcard, HasSuffix;
  }

  lemma LowerWildcard(p: Text)
    ensures Wildcard(Lower(p)) <==> |p| >= 2 && p[0] == 42 && p[1] == 46
    ensures p != [] ==> Lower(p)[1..] == Lower(p[1..])
  {
    LowerExactly(p, p);
    hide Lower;
    if |p| >= 2 {
      assert Lower(p)[..2] == [Lower(p)[0], Lower(p)[1]];
    }
    if p != [] {
      LowerExactly(p[1..], p[1..]);
    }
  }

  lemma LowerSuffix(r: Text, t: Text)
    ensures HasSuffix(Lower(r), Lower(t)) <==> |t| <= |r| && AnyCase(r[|r| - |t|..], t)
  {
    if |t| <= |r| {
      LowerExactly(r[|r| - |t|..], t);
      assert Lower(r)[|r| - |t|..] == Lower(r[|r| - |t|..]);
    }
    hide AnyCase;
  }

  /** The linear matcher. */
  ghost predicate MatchesAny(realm: Text, patterns: seq<Text>) {
    realm != [] && exists j :: 0 <= j < |patterns| && Matches(NormalizeRealm(realm), NormalizeRealm(patterns[j]))
  }

  method RealmMatches(realm: Text, patterns: seq<Text>) returns (yes: bool)
    ensures yes <==> MatchesAny(realm, patterns)
  {
    if realm == [] {
      return false;
    }
    var key := NormalizeRealm(realm);
    for j := 0 to |patterns|
      invariant forall i :: 0 <= i < j ==> !Matches(key, NormalizeRealm(patterns[i]))
    {
      var p := NormalizeRealm(patterns[j]);
      if STAR_DOT <= p {
        if HasSuffix(key, p[1..]) {
          return true;
        }
      } else if key == p {
        return true;
      }
    }
    return false;
  }

  // ---------------------------------------------------------------- what the configuration says

  /** The patterns of one partner, normalised. */
  function RulesOf(realms: seq<Text>, i: nat): (r: seq<Rule>)
    ensures |r| == |realms| && forall j :: 0 <= j < |r| ==> r[j] == Rule(NormalizeRealm(realms[j]), i)
  {
    seq(|realms|, j requires 0 <= j < |realms| => Rule(NormalizeRealm(realms[j]), i))
  }

  /** The patterns of all partners in the order they are declared. */
  function AllRules(partners: seq<Partner>): seq<Rule> {
    if partners == [] then []
    else AllRules(partners[..|partners| - 1]) + RulesOf(partners[|partners| - 1].realms, |partners| - 1)
  }

  function Exact(rules: seq<Rule>): map<Text, nat> {
    if rules == [] then map[]
    else
      var (before, r) := (Exact(rules[..|rules| - 1]), rules[|rules| - 1]);
      if Wildcard(r.pattern) then before else before[r.pattern := r.partner]
  }

  function Suffixes(rules: seq<Rule>): seq<Suffix> {
    if rules == [] then []
    else
      var (before, r) := (Suffixes(rules[..|rules| - 1]), rules[|rules| - 1]);
      if Wildcard(r.pattern) then before + [Suffix(r.pattern[1..], r.partner)] else before
  }

  /** Partner `i` declares this pattern. */
  ghost predicate Declares(partners: seq<Partner>, i: nat, p: Text) {
    i < |partners| && exists j :: 0 <= j < |partners[i].realms| && NormalizeRealm(partners[i].realms[j]) == p
  }

  lemma {:induction false} RulesAreDeclared(partners: seq<Partner>)
    ensures forall r :: r in AllRules(partners) <==> Declares(partners, r.partner, r.pattern)
    ensures forall a, b :: 0 <= a < b < |AllRules(partners)| ==>
              AllRules(partners)[a].partner <= AllRules(partners)[b].partner
  {
    if partners != [] {
      var n := |partners| - 1;
      var init, mine := partners[..n], RulesOf(partners[n].realms, n);
      RulesAreDeclared(init);
      forall r
        ensures r in AllRules(partners) <==> Declares(partners, r.partner, r.pattern)
      {
        assert r in AllRules(partners) <==> r in AllRules(init) || r in mine;
        if r.partner == n && Declares(partners, n, r.pattern) {
          var j :| 0 <= j < |partners[n].realms| && NormalizeRealm(partners[n].realms[j]) == r.pattern;
          assert mine[j] == r;
        }
      }
      forall a, b | 0 <= a < b < |AllRules(partners)|
        ensures AllRules(partners)[a].partner <= AllRules(partners)[b].partner
      {
        var all := AllRules(partners);
        assert all[a] in all && all[b] in all;
        if b < |AllRules(init)| {
          assert all[a] == AllRules(init)[a] && all[b] == AllRules(init)[b];
        }
      }
    }
  }

  // ---------------------------------------------------------------- longest suffix first

  /** Stable order: longer suffixes first, and the earlier partner first among equals. */
  predicate Before(x: Suffix, y: Suffix) {
    |x.suffix| > |y.suffix| || (|x.suffix| == |y.suffix| && x.partner <= y.partner)
  }

  predicate Ordered(s: seq<Suffix>) { forall i, j :: 0 <= i < j < |s| ==> Before(s[i], s[j]) }

  function Place(s: seq<Suffix>, e: Suffix): (r: seq<Suffix>)
    ensures multiset(r) == multiset(s) + multiset{e}
  {
    if s == [] then [e]
    else
      var n := |s| - 1;
      assert s == s[..n] + [s[n]];
      if |s[n].suffix| >= |e.suffix| then s + [e] else Place(s[..n], e) + [s[n]]
  }

  /** The library's stable sort by descending suffix length. */
  function SortStable(s: seq<Suffix>): (r: seq<Suffix>)
    ensures multiset(r) == multiset(s)
  {
    if s == [] then []
    else
      var n := |s| - 1;
      assert s == s[..n] + [s[n]];
      Place(SortStable(s[..n]), s[n])
  }

  lemma SameElements(a: seq<Suffix>, b: seq<Suffix>, e: Suffix)
    requires multiset(a) == multiset(b)
    ensures e in a <==> e in b
  {
    assert e in a <==> e in multiset(a);
    assert e in b <==> e in multiset(b);
  }

  lemma {:induction false} PlaceOrdered(s: seq<Suffix>, e: Suffix)
    requires Ordered(s) && forall x :: x in s ==> x.partner <= e.partner
    ensures Ordered(Place(s, e))
  {
    if s != [] {
      var n := |s| - 1;
      if |s[n].suffix| < |e.suffix| {
        PlaceOrdered(s[..n], e);
        var r := Place(s[..n], e);
        hide Place;
        forall i | 0 <= i < |r|
          ensures Before(r[i], s[n])
        {
          PlaceHolds(s[..n], e, r[i]);
        }
      }
    }
  }

  lemma PlaceHolds(s: seq<Suffix>, e: Suffix, x: Suffix)
    requires x in Place(s, e)
    ensures x in s || x == e
  {
    hide Place;
    assert x in multiset(Place(s, e));
  }

  lemma SortLast(s: seq<Suffix>)
    requires s != []
    ensures SortStable(s) == Place(SortStable(s[..|s| - 1]), s[|s| - 1])
  {
    hide Place;
  }

  lemma {:induction false} SortOrdered(s: seq<Suffix>)
    requires forall a, b :: 0 <= a < b < |s| ==> s[a].partner <= s[b].partner
    ensures Ordered(SortStable(s))
  {
    if s != [] {
      var init, last := s[..|s| - 1], s[|s| - 1];
      SortOrdered(init);
      SortLast(s);
      hide SortStable, Place, Ordered;
      forall x | x in SortStable(init)
        ensures x.partner <= last.partner
      {
        SameElements(SortStable(init), init, x);
        var i :| 0 <= i < |init| && init[i] == x;
        assert s[i] == x;
      }
      PlaceOrdered(SortStable(init), last);
    }
  }

  // ---------------------------------------------------------------- what the two indexes hold

  lemma ExactNext(rules: seq<Rule>, r: Rule)
    ensures Exact(rules + [r]) == if Wildcard(r.pattern) then Exact(rules) else Exact(rules)[r.pattern := r.partner]
    ensures Suffixes(rules + [r]) == if Wildcard(r.pattern) then Suffixes(rules) + [Suffix(r.pattern[1..], r.partner)]
            else Suffixes(rules)
  {
    assert (rules + [r])[..|rules|] == rules;
  }

  /** The last rule for a pattern, among the rules. */
  ghost predicate LastRule(rules: seq<Rule>, p: Text, i: nat) {
    Rule(p, i) in rules && forall k: nat :: Rule(p, k) in rules ==> k <= i
  }

  /** The exact map holds the last rule for each pattern without a wildcard. */
  lemma {:induction false} ExactHolds(rules: seq<Rule>, p: Text)
    requires forall a, b :: 0 <= a < b < |rules| ==> rules[a].partner <= rules[b].partner
    ensures p in Exact(rules) <==> !Wildcard(p) && exists i: nat :: Rule(p, i) in rules
    ensures p in Exact(rules) ==> LastRule(rules, p, Exact(rules)[p])
  {
    if rules != [] {
      var n := |rules| - 1;
      var init, last := rules[..n], rules[n];
      ExactHolds(init, p);
      assert rules == init + [last];
      ExactNext(init, last);
      hide Exact, Wildcard;
      if last.pattern == p {
        assert last == Rule(p, last.partner);
        forall k: nat | Rule(p, k) in rules
          ensures k <= last.partner
        {
          var x :| 0 <= x < |rules| && rules[x] == Rule(p, k);
        }
      } else {
        assert forall i: nat :: Rule(p, i) in rules <==> Rule(p, i) in init;
      }
    }
  }

  lemma {:induction false} SuffixesHold(rules: seq<Rule>)
    requires forall a, b :: 0 <= a < b < |rules| ==> rules[a].partner <= rules[b].partner
    ensures forall e ::
              e in Suffixes(rules) <==>
                e.suffix != [] && e.suffix[0] == DOT && Rule([42] + e.suffix, e.partner) in rules
    ensures forall a, b :: 0 <= a < b < |Suffixes(rules)| ==> Suffixes(rules)[a].partner <= Suffixes(rules)[b].partner
  {
    if rules != [] {
      var n := |rules| - 1;
      var r := rules[n];
      SuffixesHold(rules[..n]);
      assert forall x :: x in rules <==> x in rules[..n] || x == r;
      if Wildcard(r.pattern) {
        assert r.pattern == [42] + r.pattern[1..];
      }
      forall e
        ensures e in Suffixes(rules) <==>
                  e.suffix != [] && e.suffix[0] == DOT && Rule([42] + e.suffix, e.partner) in rules
      {
        assert ([42] + e.suffix)[1..] == e.suffix;
        if Wildcard(r.pattern) {
          assert e in Suffixes(rules) <==> e in Suffixes(rules[..n]) || e == Suffix(r.pattern[1..], r.partner);
        }
      }
      forall a, b | 0 <= a < b < |Suffixes(rules)|
        ensures Suffixes(rules)[a].partner <= Suffixes(rules)[b].partner
      {
        assert Suffixes(rules)[a] in Suffixes(rules);
      }
    }
  }

  /** The two indexes of a configuration. */
  function ExactMap(partners: seq<Partner>): map<Text, nat> { Exact(AllRules(partners)) }

  function SuffixList(partners: seq<Partner>): seq<Suffix> { SortStable(Suffixes(AllRules(partners))) }

  // ---------------------------------------------------------------- the lookup

  /** Partner `i` has a wildcard pattern with a suffix of length `n` that matches the key. */
  ghost predicate ByWildcard(partners: seq<Partner>, key: Text, i: nat, n: nat) {
    exists p :: Declares(partners, i, p) && Wildcard(p) && |p| == n + 1 && HasSuffix(key, p[1..])
  }

  ghost predicate ByName(partners: seq<Partner>, key: Text, i: nat) { !Wildcard(key) && Declares(partners, i, key) }

  /** No matching suffix is longer, and none as long is declared by an earlier partner. */
  ghost predicate NoneBetter(partners: seq<Partner>, key: Text, found: nat, n: nat) {
    forall i: nat, m: nat :: ByWildcard(partners, key, i, m) ==> m < n || (m == n && found <= i)
  }

  /** What the lookup answers: exact patterns first and the last declared among them, otherwise the
      longest matching suffix and the first declared among equals. */
  ghost predicate Owner(partners: seq<Partner>, key: Text, found: Option<nat>) {
    if exists i: nat :: ByName(partners, key, i) then
      found.Some? && ByName(partners, key, found.value) && forall i: nat :: ByName(partners, key, i) ==>
        i <= found.value
    else if exists i: nat, n: nat :: ByWildcard(partners, key, i, n) then
      found.Some?
      && exists n: nat :: ByWildcard(partners, key, found.value, n) && NoneBetter(partners, key, found.value, n)
    else found == None
  }

  /** The owner is unique, and there is one exactly when the linear matcher accepts some partner. */
  lemma OwnerIsTheMatch(partners: seq<Partner>, realm: Text, found: Option<nat>, other: Option<nat>)
    requires realm != [] && Owner(partners, NormalizeRealm(realm), found)
    ensures found.Some? <==> exists i :: 0 <= i < |partners| && MatchesAny(realm, partners[i].realms)
    ensures found.Some? ==> found.value < |partners| && MatchesAny(realm, partners[found.value].realms)
    ensures Owner(partners, NormalizeRealm(realm), other) ==> other == found
  {
    hide NormalizeRealm, MatchesAny;
    var key := NormalizeRealm(realm);
    forall i: nat
      ensures i < |partners| && MatchesAny(realm, partners[i].realms) <==>
              ByName(partners, key, i) || exists n: nat :: ByWildcard(partners, key, i, n)
    {
      if i < |partners| {
        MatchIsNameOrWildcard(partners, realm, i);
      }
    }
    hide ByName, ByWildcard;
  }

  /** The owner does not depend on the letter case of the realm asked for, nor on one final dot. */
  lemma OwnerOfAnySpelling(partners: seq<Partner>, realm: Text, other: Text, found: Option<nat>)
    requires AnyCase(realm, other) || realm == other + [46]
    requires other == [] || other[|other| - 1] != 46
    ensures Owner(partners, NormalizeRealm(realm), found) <==> Owner(partners, NormalizeRealm(other), found)
  {
    RealmKeys(realm, other);
    assert AnyCase(other, other);
    if realm == other + [46] {
      assert realm[..|realm| - 1] == other;
    } else if realm != [] {
      assert SameLetter(realm[|realm| - 1], other[|realm| - 1]);
    }
    hide Owner, NormalizeRealm;
  }

  lemma MatchIsNameOrWildcard(partners: seq<Partner>, realm: Text, i: nat)
    requires i < |partners| && realm != []
    ensures MatchesAny(realm, partners[i].realms) <==>
              ByName(partners, NormalizeRealm(realm), i)
                || exists n: nat :: ByWildcard(partners, NormalizeRealm(realm), i, n)
  {
    hide NormalizeRealm, HasSuffix;
    var key, realms := NormalizeRealm(realm), partners[i].realms;
    if MatchesAny(realm, realms) {
      var j :| 0 <= j < |realms| && Matches(key, NormalizeRealm(realms[j]));
      var p := NormalizeRealm(realms[j]);
      assert Declares(partners, i, p);
      if Wildcard(p) {
        assert ByWildcard(partners, key, i, |p| - 1);
      }
    }
    if exists n: nat :: ByWildcard(partners, key, i, n) {
      var n: nat :| ByWildcard(partners, key, i, n);
      var p :| Declares(partners, i, p) && Wildcard(p) && |p| == n + 1 && HasSuffix(key, p[1..]);
      var j :| 0 <= j < |realms| && NormalizeRealm(realms[j]) == p;
      assert Matches(key, NormalizeRealm(realms[j]));
    }
  }

  lemma ExactEmpty()
    ensures Exact([]) == map[] && Suffixes([]) == []
  {
  }

  lemma NoRules(before: seq<Rule>, realms: seq<Text>, i: nat)
    ensures before + RulesOf(realms[..0], i) == before
  {
  }

  lemma RulesNext(before: seq<Rule>, realms: seq<Text>, i: nat, j: nat)
    requires j < |realms|
    ensures before + RulesOf(realms[..j + 1], i)
            == (before + RulesOf(realms[..j], i)) + [Rule(NormalizeRealm(realms[j]), i)]
  {
    hide NormalizeRealm;
  }

  lemma AllRulesNext(partners: seq<Partner>, i: nat)
    requires i < |partners|
    ensures AllRules(partners[..i + 1]) == AllRules(partners[..i])
            + RulesOf(partners[i].realms[..|partners[i].realms|], i)
  {
    hide RulesOf;
    assert partners[..i + 1][..i] == partners[..i];
    assert partners[i].realms[..|partners[i].realms|] == partners[i].realms;
  }

  class Registry {
    var realmExact: map<Text, nat>
    var realmSuffix: seq<Suffix>
    ghost var Partners: seq<Partner>

    ghost predicate Valid()
      reads this
    {
      realmExact == ExactMap(Partners) && realmSuffix == SuffixList(Partners)
    }

    constructor (partners: seq<Partner>)
      ensures Valid() && Partners == partners
    {
      new;
      Rebuild(partners);
    }

    /** Builds both indexes anew from the configured partners. */
    method Rebuild(partners: seq<Partner>)
      modifies this
      ensures Valid() && Partners == partners
    {
      hide NormalizeRealm, Exact, Suffixes, RulesOf;
      ExactEmpty();
      realmExact, realmSuffix, Partners := map[], [], partners;
      for i := 0 to |partners|
        invariant Partners == partners
        invariant realmExact == Exact(AllRules(partners[..i])) && realmSuffix == Suffixes(AllRules(partners[..i]))
      {
        var p := partners[i];
        ghost var before := AllRules(partners[..i]);
        NoRules(before, p.realms, i);
        hide AllRules;
        for j := 0 to |p.realms|
          invariant Partners == partners
          invariant realmExact == Exact(before + RulesOf(p.realms[..j], i))
          invariant realmSuffix == Suffixes(before + RulesOf(p.realms[..j], i))
        {
          var realm := NormalizeRealm(p.realms[j]);
          RulesNext(before, p.realms, i, j);
          ExactNext(before + RulesOf(p.realms[..j], i), Rule(realm, i));
          if STAR_DOT <= realm {
            realmSuffix := realmSuffix + [Suffix(realm[1..], i)];
          } else {
            realmExact := realmExact[realm := i];
          }
        }
        AllRulesNext(partners, i);
      }
      assert partners[..|partners|] == partners;
      realmSuffix := SortStable(realmSuffix);
    }

    method PartnerForRealm(realm: Text) returns (found: Option<nat>)
      requires Valid()
      ensures realm == [] ==> found == None
      ensures realm != [] ==> Owner(Partners, NormalizeRealm(realm), found)
    {
      if realm == [] {
        return None;
      }
      var key := NormalizeRealm(realm);
      ExactIsByName(Partners, key);
      SuffixListHolds(Partners, key);
      hide ExactMap, SuffixList, NormalizeRealm, ByName, Ordered, Listed, Owner, HasSuffix;
      if key in realmExact {
        NamedOwns(Partners, key, realmExact[key]);
        return Some(realmExact[key]);
      }
      for k := 0 to |realmSuffix|
        invariant forall x :: 0 <= x < k ==> !HasSuffix(key, realmSuffix[x].suffix)
      {
        var e := realmSuffix[k];
        if HasSuffix(key, e.suffix) {
          FirstIsOwner(Partners, key, realmSuffix, k);
          return Some(e.partner);
        }
      }
      NobodyOwns(Partners, key, realmSuffix);
      return None;
    }
  }

  /** The exact map holds, for each realm named exactly, the last partner that names it. */
  lemma ExactIsByName(partners: seq<Partner>, key: Text)
    ensures key in ExactMap(partners) <==> exists i: nat :: ByName(partners, key, i)
    ensures key in ExactMap(partners) ==>
              ByName(partners, key, ExactMap(partners)[key]) && forall i: nat :: ByName(partners, key, i) ==>
                i <= ExactMap(partners)[key]
  {
    var rules := AllRules(partners);
    RulesAreDeclared(partners);
    ExactHolds(rules, key);
    hide Exact, AllRules, Wildcard, Declares;
    forall i: nat
      ensures Rule(key, i) in rules <==> Declares(partners, i, key)
    {
      assert Declares(partners, Rule(key, i).partner, Rule(key, i).pattern) <==> Rule(key, i) in rules;
    }
    if exists i: nat :: ByName(partners, key, i) {
      var i: nat :| ByName(partners, key, i);
      assert Rule(key, i) in rules;
    }
    if key in ExactMap(partners) {
      var i := ExactMap(partners)[key];
      assert Rule(key, i) in rules;
      assert ByName(partners, key, i);
    }
  }

  /** The suffix list holds every wildcard pattern, in order. */
  lemma SuffixListHolds(partners: seq<Partner>, key: Text)
    ensures Ordered(SuffixList(partners)) && Listed(partners, key, SuffixList(partners))
  {
    RulesAreDeclared(partners);
    SuffixesHold(AllRules(partners));
    SortOrdered(Suffixes(AllRules(partners)));
    hide ByWildcard, Entry, Ordered;
    forall i: nat, n: nat
      ensures ByWildcard(partners, key, i, n) <==> Entry(SuffixList(partners), key, i, n)
    {
      WildcardIsListed(partners, key, i, n);
    }
  }

  ghost predicate Listed(partners: seq<Partner>, key: Text, sorted: seq<Suffix>) {
    forall i: nat, n: nat :: ByWildcard(partners, key, i, n) <==> Entry(sorted, key, i, n)
  }

  ghost predicate Entry(list: seq<Suffix>, key: Text, i: nat, n: nat) {
    exists e :: e in list && e.partner == i && |e.suffix| == n && HasSuffix(key, e.suffix)
  }

  lemma InList(partners: seq<Partner>, e: Suffix)
    ensures e in SuffixList(partners) <==> e in Suffixes(AllRules(partners))
  {
    SameElements(SuffixList(partners), Suffixes(AllRules(partners)), e);
  }

  lemma DeclaredIsListed(partners: seq<Partner>, i: nat, p: Text)
    requires Declares(partners, i, p) && Wildcard(p)
    ensures Suffix(p[1..], i) in SuffixList(partners)
  {
    var rules := AllRules(partners);
    RulesAreDeclared(partners);
    SuffixesHold(rules);
    InList(partners, Suffix(p[1..], i));
    hide AllRules, Suffixes, SuffixList, Declares;
    assert [42] + p[1..] == p;
    assert Declares(partners, Rule(p, i).partner, Rule(p, i).pattern);
  }

  lemma ListedIsDeclared(partners: seq<Partner>, e: Suffix)
    requires e in SuffixList(partners)
    ensures Declares(partners, e.partner, [42] + e.suffix) && Wildcard([42] + e.suffix)
            && ([42] + e.suffix)[1..] == e.suffix
  {
    var rules := AllRules(partners);
    RulesAreDeclared(partners);
    SuffixesHold(rules);
    InList(partners, e);
    hide AllRules, Suffixes, SuffixList, Declares;
    assert Rule([42] + e.suffix, e.partner) in rules;
  }

  lemma WildcardIsListed(partners: seq<Partner>, key: Text, i: nat, n: nat)
    ensures ByWildcard(partners, key, i, n) <==> Entry(SuffixList(partners), key, i, n)
  {
    hide SuffixList, HasSuffix, Declares;
    var sorted := SuffixList(partners);
    if ByWildcard(partners, key, i, n) {
      var p :| Declares(partners, i, p) && Wildcard(p) && |p| == n + 1 && HasSuffix(key, p[1..]);
      DeclaredIsListed(partners, i, p);
    }
    if Entry(sorted, key, i, n) {
      var e :| e in sorted && e.partner == i && |e.suffix| == n && HasSuffix(key, e.suffix);
      ListedIsDeclared(partners, e);
    }
  }

  /** The first entry of the ordered list that matches is the owner. */
  lemma FirstIsOwner(partners: seq<Partner>, key: Text, sorted: seq<Suffix>, k: nat)
    requires Ordered(sorted) && Listed(partners, key, sorted) && k < |sorted| && HasSuffix(key, sorted[k].suffix)
    requires forall x :: 0 <= x < k ==> !HasSuffix(key, sorted[x].suffix)
    requires forall i :: !ByName(partners, key, i)
    ensures Owner(partners, key, Some(sorted[k].partner))
  {
    hide ByWildcard, ByName, HasSuffix, Ordered;
    var e := sorted[k];
    assert Entry(sorted, key, e.partner, |e.suffix|) by {
      assert e in sorted;
    }
    forall i: nat, m: nat | ByWildcard(partners, key, i, m)
      ensures m < |e.suffix| || (m == |e.suffix| && e.partner <= i)
    {
      var d :| d in sorted && d.partner == i && |d.suffix| == m && HasSuffix(key, d.suffix);
      OrderedFrom(sorted, k, d);
    }
    assert NoneBetter(partners, key, e.partner, |e.suffix|);
  }

  lemma OrderedFrom(sorted: seq<Suffix>, k: nat, d: Suffix)
    requires Ordered(sorted) && k < |sorted| && d in sorted && (forall x :: 0 <= x < k ==> sorted[x] != d)
    ensures Before(sorted[k], d)
  {
    var x :| 0 <= x < |sorted| && sorted[x] == d;
    assert x >= k;
  }

  /** Without an exact rule or a matching entry nobody owns the realm. */
  lemma NobodyOwns(partners: seq<Partner>, key: Text, sorted: seq<Suffix>)
    requires Listed(partners, key, sorted) && forall i: nat :: !ByName(partners, key, i)
    requires forall x :: 0 <= x < |sorted| ==> !HasSuffix(key, sorted[x].suffix)
    ensures Owner(partners, key, None)
  {
    hide ByWildcard, ByName, HasSuffix;
    assert forall i: nat, n: nat :: !Entry(sorted, key, i, n);
  }

  lemma NamedOwns(partners: seq<Partner>, key: Text, i: nat)
    requires ByName(partners, key, i) && forall k: nat :: ByName(partners, key, k) ==> k <= i
    ensures Owner(partners, key, Some(i))
  {
    hide ByWildcard, ByName;
  }
}
