/** How the caps of the pseudonym store are derived from the partners' policies. */
module StoreLimits {
  import opened Bytes
  import opened Sums
  import opened PseudonymStore
  import opened MemoryStore

  /** Static hiding masks with the edge's identity alone; only stateful hiding stores pseudonyms. */
  datatype Mode = NoHiding | Static | Stateful

  /** The part of a partner's configuration the caps depend on. A negative maximum asks for no cap. */
  datatype Partner = Partner(name: Text, mode: Mode, maxEntries: int)

  predicate Unlimited(partners: seq<Partner>) {
    exists i :: 0 <= i < |partners| && partners[i].mode != NoHiding && partners[i].maxEntries < 0
  }

  /** The maxima of the partners in these modes, added up, and their names. */
  function TotalOf(partners: seq<Partner>, modes: set<Mode>): int {
    if partners == [] then 0
    else
      var p := partners[|partners| - 1];
      TotalOf(partners[..|partners| - 1], modes) + if p.mode in modes then p.maxEntries else 0
  }

  function NamesOf(partners: seq<Partner>, modes: set<Mode>): set<Text> {
    set p | p in partners && p.mode in modes :: p.name
  }

  function HidingTotal(partners: seq<Partner>): int { TotalOf(partners, {Static, Stateful}) }

  function StatefulTotal(partners: seq<Partner>): int { TotalOf(partners, {Stateful}) }

  function StatefulNames(partners: seq<Partner>): set<Text> { NamesOf(partners, {Stateful}) }

  /** The store-wide cap: the sum over the hiding partners, or none if one of them asks for none. */
  method MaxPartnerEntries(partners: seq<Partner>) returns (total: int)
    ensures total == if Unlimited(partners) then 0 else HidingTotal(partners)
  {
    total := 0;
    for i := 0 to |partners|
      invariant !Unlimited(partners[..i]) && total == HidingTotal(partners[..i])
    {
      assert partners[..i + 1][..i] == partners[..i];
      var p := partners[i];
      assert partners[..i + 1][i] == p;
      if p.mode == NoHiding {
        continue;
      }
      if p.maxEntries < 0 {
        return 0;
      }
      total := total + p.maxEntries;
    }
    assert partners[..|partners|] == partners;
  }

  /** The cap of one partner: negative means none. */
  function LimitOf(p: Partner): int { if p.maxEntries < 0 then 0 else p.maxEntries }

  predicate Distinct(partners: seq<Partner>) {
    forall i, j :: 0 <= i < j < |partners| ==> partners[i].name != partners[j].name
  }

  /** Every partner has its cap, and nothing is stored. */
  ghost predicate Limited(s: Store, partners: seq<Partner>) {
    && s.pseudonyms == map[]
    && forall i :: 0 <= i < |partners| ==>
      partners[i].name in s.buckets && s.buckets[partners[i].name].limit == LimitOf(partners[i])
  }

  /** The set-up of Init: `override` is the configured max_entries, zero to derive it. */
  method Init(partners: seq<Partner>, override: int) returns (store: Memory)
    requires Distinct(partners)
    ensures Valid(store.State()) && Limited(store.State(), partners)
    ensures store.maxEntries == if override != 0 then override else if Unlimited(partners) then 0
            else HidingTotal(partners)
  {
    var maxEntries := override;
    if maxEntries == 0 {
      maxEntries := MaxPartnerEntries(partners);
    }
    store := new Memory(maxEntries);
    for i := 0 to |partners|
      invariant Valid(store.State()) && store.pseudonyms == map[]
      invariant forall j :: 0 <= j < i ==>
                  partners[j].name in store.buckets && store.buckets[partners[j].name].limit == LimitOf(partners[j])
    {
      hide Valid;
      var limit := partners[i].maxEntries;
      if limit < 0 {
        limit := 0;
      }
      store.SetPartnerLimit(partners[i].name, limit);
    }
  }

  lemma NamesAppend(init: seq<Partner>, p: Partner, modes: set<Mode>)
    requires Distinct(init + [p])
    ensures Distinct(init) && NamesOf(init + [p], modes)
            == NamesOf(init, modes) + if p.mode in modes then {p.name} else {}
    ensures p.name !in NamesOf(init, modes)
  {
    assert forall i :: 0 <= i < |init| ==> (init + [p])[i] == init[i];
    assert (init + [p])[|init|] == p;
  }

  lemma {:induction false} TotalIsSumOfLimits(partners: seq<Partner>, modes: set<Mode>, f: Text -> int)
    requires Distinct(partners)
    requires forall p :: p in partners && p.mode in modes ==> f(p.name) == p.maxEntries
    ensures Sum(f, NamesOf(partners, modes)) == TotalOf(partners, modes)
  {
    if partners != [] {
      var n := |partners| - 1;
      var init, p := partners[..n], partners[n];
      assert partners == init + [p];
      NamesAppend(init, p, modes);
      hide Distinct, NamesOf;
      TotalIsSumOfLimits(init, modes, f);
      hide Sum;
      if p.mode in modes {
        assert NamesOf(partners, modes) - {p.name} == NamesOf(init, modes);
        SumPick(f, NamesOf(partners, modes), p.name);
      } else {
        assert NamesOf(partners, modes) == NamesOf(init, modes);
      }
    } else {
      assert NamesOf(partners, modes) == {};
    }
  }
}
