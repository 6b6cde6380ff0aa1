/**
 * Topology hiding as the extension object: messages are edited in place and the pseudonym store
 * changes with them. The loops are proved against `Hiding` and `HidingStore`.
 */
module TopoHide {
  import opened Bytes
  import opened Names
  import opened Codec
  import opened PseudonymStore
  import opened MemoryStore
  import opened Hiding
  import opened HidingStore
  import opened StoreRefinement

  class Msg {
    const request: bool
    var avps: seq<Avp>

    constructor (request: bool, avps: seq<Avp>)
      ensures this.request == request && this.avps == avps
    {
      this.request, this.avps := request, avps;
    }
  }

  function SessionOf(avps: seq<Avp>): Text {
    var i := FindAvp(avps, SESSION_ID);
    if i == None then [] else avps[i.value].data
  }

  /** What one position of the message did to the store and which mask it got. */
  ghost predicate Issued(p: Policy, inside: Inside, partner: Text, session: Text, now: int, a: Avp, s: Store,
                         r: Store, mask: Text) {
    if Masked(p, inside, a) then
      Valid(s) && exists hex: Option<Label>, victims ::
        MaskStep(p, partner, s, a.data, session, now, hex, victims, r, mask)
    else r == s
  }

  /** The stores a message leads through, position by position. */
  ghost predicate Trail(p: Policy, inside: Inside, partner: Text, session: Text, now: int,
                        avps: seq<Avp>, trail: seq<Store>, masks: seq<Text>) {
    && |trail| == |avps| + 1 && |masks| == |avps|
    && forall i :: 0 <= i < |avps| ==> Issued(p, inside, partner, session, now, avps[i], trail[i], trail[i + 1],
                                              masks[i])
  }

  /** restoreDestinationHost on a whole message: the first Destination-Host, whatever its vendor. */
  function RestoredMessage(s: Store, avps: seq<Avp>, now: int): (Store, seq<Avp>) {
    var i := FindAvp(avps, DESTINATION_HOST);
    if i == None then (s, avps)
    else
      var (r, answer) := Restore(s, avps[i.value].data, now);
      (r, if answer == None then avps else avps[i.value := avps[i.value].(data := answer.value)])
  }

  class Extension {
    const store: Memory
    const inside: Inside
    const random: nat -> Option<Label>      // the labels the random source gives, or nothing when it fails
    var draws: nat

    constructor (store: Memory, inside: Inside, random: nat -> Option<Label>)
      ensures this.store == store && this.inside == inside && this.random == random && draws == 0
    {
      this.store, this.inside, this.random, draws := store, inside, random, 0;
    }

    method Mask(host: Text, session: Text, p: Policy, partner: Text, now: int)
        returns (mask: Text, ghost hex: Option<Label>, ghost victims: seq<Text>)
      requires Valid(store.State())
      modifies this, store
      ensures Valid(store.State())
      ensures MaskStep(p, partner, old(store.State()), host, session, now, hex, victims, store.State(), mask)
      ensures hex == random(old(draws))
    {
      hide FindPseudonym, Put, Legal, Trimmed, NewPseudonym, ListsOk, ForwardOk;
      hex, victims := random(draws), [];
      if !p.stateful {
        return p.edge, hex, victims;
      }
      var found := store.Pseudonym(host, session, now);
      if found.Some? {
        return found.value, hex, victims;
      }
      var drawn := random(draws);
      draws := draws + 1;
      if drawn == None {
        return p.edge, hex, victims;
      }
      mask := NewPseudonym(p, drawn.value);
      victims := store.PutPseudonym(partner, mask, host, session, now, Ttl(p));
    }

    /** The switch on the code: the AVP as rewritten, and whether its code sends it out. */
    method Consider(a: Avp, p: Policy, partner: Text, session: Text, now: int)
        returns (avp: Avp, remove: bool, masked: bool, edited: bool, ghost mask: Text)
      requires Valid(store.State())
      modifies this, store
      ensures Valid(store.State())
      ensures Issued(p, inside, partner, session, now, a, old(store.State()), store.State(), mask)
      ensures remove == DroppedByCode(p, inside, a) && avp == Rewritten(p, inside, a, mask)
      ensures masked == Masked(p, inside, a) && (masked ==> edited) && (!edited ==> Wire(avp) == Wire(a))
    {
      hide Valid, Consistent, MaskStep, Wire, DecodeGrouped, Normalize, MustMask, Opened, ProxyIsInternal;
      avp, remove, masked, edited, mask := a, false, false, false, [];
      if avp.code == ORIGIN_HOST {
        if MustMask(p, inside, avp.data) {
          ghost var hex: Option<Label>, victims;
          var m;
          m, hex, victims := Mask(avp.data, session, p, partner, now);
          mask := m;
          avp := avp.(data := m);
          masked, edited := true, true;
        }
      } else if avp.code == ERROR_REPORTING_HOST {
        if p.hideErrorHost && MustMask(p, inside, avp.data) {
          avp := avp.(data := p.edge);
          edited := true;
        }
      } else if avp.code == ROUTE_RECORD {
        remove := p.hideRecords && MustMask(p, inside, avp.data);
      } else if avp.code == PROXY_INFO {
        if p.hideProxy {
          remove := ProxyIsInternal(p, inside, avp);
          OpenedShrinks(avp);
          avp := Opened(avp);
        }
      } else if avp.code == HOST_IP_ADDRESS {
        remove := p.hideAddress;
      } else if avp.code == ORIGIN_STATE_ID {
        remove := p.hideState;
      }
    }

    /** One AVP: rewrite it where it stands, and take it out if it has to go. */
    method HideOne(msg: Msg, i: nat, p: Policy, partner: Text, session: Text, now: int)
        returns (remove: bool, masked: bool, edited: bool, ghost mask: Text)
      requires Valid(store.State()) && i < |msg.avps|
      modifies this, store, msg
      ensures Valid(store.State())
      ensures Issued(p, inside, partner, session, now, old(msg.avps[i]), old(store.State()), store.State(), mask)
      ensures masked == Masked(p, inside, old(msg.avps[i])) && (masked ==> edited)
      ensures remove == Dropped(p, inside, old(msg.avps[i]))
      ensures msg.avps == if remove then old(msg.avps)[..i] + old(msg.avps)[i + 1..]
                          else old(msg.avps)[i := Rewritten(p, inside, old(msg.avps[i]), mask)]
      ensures !edited ==> Wire(Rewritten(p, inside, old(msg.avps[i]), mask)) == Wire(old(msg.avps[i]))
    {
      hide Valid, Issued, Masked, Wire, Rewritten;
      var avp;
      avp, remove, masked, edited, mask := Consider(msg.avps[i], p, partner, session, now);
      RewrittenNames(p, inside, msg.avps[i], mask);
      hide DroppedByCode;
      if !remove && Scrubbed(p, avp) {
        remove := true;
      }
      if remove {
        msg.avps := msg.avps[..i] + msg.avps[i + 1..];
      } else {
        msg.avps := msg.avps[i := avp];
      }
    }

    /** The loop over the AVPs: a removal does not advance the index. */
    method HideAvps(msg: Msg, p: Policy, partner: Text, session: Text, now: int)
        returns (changed: bool, originMasked: bool, ghost masks: seq<Text>, ghost trail: seq<Store>)
      requires Valid(store.State())
      modifies this, store, msg
      ensures Valid(store.State())
      ensures Trail(p, inside, partner, session, now, old(msg.avps), trail, masks)
      ensures trail[0] == old(store.State()) && trail[|old(msg.avps)|] == store.State()
      ensures msg.avps == Sanitised(p, inside, old(msg.avps), masks)
      ensures originMasked <==> AnyMasked(p, inside, old(msg.avps))
      ensures originMasked ==> changed
      ensures !changed ==> WireAll(msg.avps) == WireAll(old(msg.avps))
    {
      hide Valid, Consistent, Sanitised, Wire, WireAll, Dropped, Rewritten, Masked, Issued, Trail, AnyMasked, Progress;
      ghost var was, start := msg.avps, store.State();
      changed, originMasked, masks, trail := false, false, [], [start];
      ghost var k := 0;
      var i := 0;
      ProgressStart(p, inside, partner, session, now, was, start);
      while i < |msg.avps|
        invariant Valid(store.State()) && k <= |was|
        invariant Progress(p, inside, partner, session, now, was, k, start, store.State(), msg.avps, i, masks, trail,
                           originMasked, changed)
        decreases |was| - k
      {
        ProgressHere(p, inside, partner, session, now, was, k, start, store.State(), msg.avps, i, masks, trail,
                     originMasked, changed);
        ghost var before, avps, mask := store.State(), msg.avps, [];
        var removed, masked, edited;
        removed, masked, edited, mask := HideOne(msg, i, p, partner, session, now);
        ProgressNext(p, inside, partner, session, now, was, k, start, before, avps, i, masks, trail, originMasked,
                     changed,
                     store.State(), mask, edited);
        if !removed {
          i := i + 1;
        }
        masks, trail, k := masks + [mask], trail + [store.State()], k + 1;
        originMasked := originMasked || masked;
        changed := changed || removed || edited;
      }
      ProgressEnd(p, inside, partner, session, now, was, k, start, store.State(), msg.avps, i, masks, trail,
                  originMasked, changed);
    }

    /** The whole of hide, on a message of the partner `partner` under policy `p`. */
    method Hide(msg: Msg, p: Policy, partner: Text, now: int)
        returns (changed: bool, ghost masks: seq<Text>, ghost trail: seq<Store>)
      requires Valid(store.State())
      modifies this, store, msg
      ensures Valid(store.State())
      ensures Trail(p, inside, partner, SessionOf(old(msg.avps)), now, old(msg.avps), trail, masks)
      ensures trail[0] == old(store.State()) && trail[|old(msg.avps)|] == store.State()
      ensures msg.avps == Hidden(p, inside, msg.request, old(msg.avps), masks)
      ensures !changed ==> WireAll(msg.avps) == WireAll(old(msg.avps))
    {
      hide Valid, Sanitised, WireAll, AnyMasked, Normalize, HasRecord;
      var session := SessionOf(msg.avps);
      ghost var was := msg.avps;
      var originMasked;
      changed, originMasked, masks, trail := HideAvps(msg, p, partner, session, now);
      if originMasked && p.hideRealm {
        var i := FindAvp(msg.avps, ORIGIN_REALM);
        if i.Some? {
          var (avp, realm) := (msg.avps[i.value], OutwardRealm(p));
          if realm != [] && Lower(avp.data) != Lower(realm) {
            msg.avps := msg.avps[i.value := avp.(data := realm)];
            changed := true;
          }
        }
      }
      var recorded := HasRouteRecord(msg.avps, p.edge);
      if p.hideRecords && msg.request && !recorded {
        msg.avps := msg.avps + [EdgeRecord(p)];
        changed := true;
      }
    }

    method RestoreDestinationHost(msg: Msg, now: int)
      requires Valid(store.State())
      modifies store, msg
      ensures Valid(store.State())
      ensures (store.State(), msg.avps) == RestoredMessage(old(store.State()), old(msg.avps), now)
    {
      hide Valid, FindRealHost, Normalize;
      var i := FindAvp(msg.avps, DESTINATION_HOST);
      if i == None {
        return;
      }
      var avp := msg.avps[i.value];
      var host := Normalize(avp.data);
      if host == [] {
        return;
      }
      var realHost := store.RealHost(host, now);
      if realHost == None {
        return;
      }
      msg.avps := msg.avps[i.value := avp.(data := realHost.value)];
    }
  }

  method HasRouteRecord(avps: seq<Avp>, identity: Text) returns (yes: bool)
    ensures yes == HasRecord(avps, identity)
  {
    hide Normalize;
    var want := Normalize(identity);
    for i := 0 to |avps|
      invariant forall j :: 0 <= j < i ==> avps[j].code != ROUTE_RECORD || Normalize(avps[j].data) != want
    {
      if avps[i].code == ROUTE_RECORD && Normalize(avps[i].data) == want {
        return true;
      }
    }
    return false;
  }

  // ---------------------------------------------------------------- the steps of the loop

  /** Where the loop stands: `k` AVPs of the original are done and the index points behind what is left of them. */
  ghost predicate Progress(p: Policy, inside: Inside, partner: Text, session: Text, now: int, was: seq<Avp>, k: nat,
                           start: Store, end: Store, avps: seq<Avp>, i: nat, masks: seq<Text>, trail: seq<Store>,
                           originMasked: bool, changed: bool)
    requires k <= |was|
  {
    && |masks| == k && |trail| == k + 1 && trail[0] == start && trail[k] == end
    && Trail(p, inside, partner, session, now, was[..k], trail, masks)
    && var done := Sanitised(p, inside, was[..k], masks);
       && avps == done + was[k..] && i == |done|
       && (originMasked <==> AnyMasked(p, inside, was[..k])) && (originMasked ==> changed)
       && (!changed ==> WireAll(done) == WireAll(was[..k]))
  }

  lemma ProgressStart(p: Policy, inside: Inside, partner: Text, session: Text, now: int, was: seq<Avp>, start: Store)
    ensures Progress(p, inside, partner, session, now, was, 0, start, start, was, 0, [], [start], false, false)
  {
    NothingYet(p, inside, partner, session, now, start);
    hide Sanitised, Trail, AnyMasked, WireAll;
    assert was[..0] == [] && was[0..] == was && [] + was == was;
  }

  lemma ProgressHere(p: Policy, inside: Inside, partner: Text, session: Text, now: int, was: seq<Avp>, k: nat,
                     start: Store, end: Store, avps: seq<Avp>, i: nat, masks: seq<Text>, trail: seq<Store>,
                     originMasked: bool, changed: bool)
    requires k <= |was| && Progress(p, inside, partner, session, now, was, k, start, end, avps, i, masks, trail,
                                    originMasked, changed)
    ensures i < |avps| <==> k < |was|
    ensures k < |was| ==> avps[i] == was[k]
  {
    hide Sanitised, Trail, AnyMasked, WireAll;
  }

  lemma ProgressNext(p: Policy, inside: Inside, partner: Text, session: Text, now: int, was: seq<Avp>, k: nat,
                     start: Store, end: Store, avps: seq<Avp>, i: nat, masks: seq<Text>, trail: seq<Store>,
                     originMasked: bool, changed: bool, r: Store, mask: Text, edited: bool)
    requires k < |was| && Progress(p, inside, partner, session, now, was, k, start, end, avps, i, masks, trail,
                                   originMasked, changed)
    requires Issued(p, inside, partner, session, now, was[k], end, r, mask)
    requires (Masked(p, inside, was[k]) ==> edited)
             && (!edited ==> Wire(Rewritten(p, inside, was[k], mask)) == Wire(was[k]))
    requires i < |avps|
    ensures var removed, kept := Dropped(p, inside, was[k]), Rewritten(p, inside, was[k], mask);
      Progress(p, inside, partner, session, now, was, k + 1, start, r,
               if removed then avps[..i] + avps[i + 1..] else avps[i := kept], if removed then i else i + 1,
               masks + [mask], trail + [r], originMasked || Masked(p, inside, was[k]), changed || removed || edited)
  {
    if Dropped(p, inside, was[k]) {
      ProgressRemoved(p, inside, partner, session, now, was, k, start, end, avps, i, masks, trail, originMasked,
                      changed, r, mask);
    } else {
      ProgressKept(p, inside, partner, session, now, was, k, start, end, avps, i, masks, trail, originMasked, changed,
                   r, mask, edited);
    }
    hide Progress, Issued, Masked, Dropped, Rewritten, Wire;
  }

  lemma ProgressRemoved(p: Policy, inside: Inside, partner: Text, session: Text, now: int, was: seq<Avp>, k: nat,
                        start: Store, end: Store, avps: seq<Avp>, i: nat, masks: seq<Text>, trail: seq<Store>,
                        originMasked: bool, changed: bool, r: Store, mask: Text)
    requires k < |was| && Progress(p, inside, partner, session, now, was, k, start, end, avps, i, masks, trail,
                                   originMasked, changed)
    requires Issued(p, inside, partner, session, now, was[k], end, r, mask) && Dropped(p, inside, was[k]) && i < |avps|
    ensures Progress(p, inside, partner, session, now, was, k + 1, start, r, avps[..i] + avps[i + 1..], i,
                     masks + [mask], trail + [r], originMasked || Masked(p, inside, was[k]), true)
  {
    SanitisedNext(p, inside, was, masks, k, mask);
    TrailNext(p, inside, partner, session, now, was, trail, masks, k, r, mask);
    AnyMaskedNext(p, inside, was, k);
    hide Sanitised, Trail, AnyMasked, WireAll, Wire, Issued, Masked, Rewritten, Dropped;
    Lasts(masks, trail, mask, r);
    ListRemoved(Sanitised(p, inside, was[..k], masks), was, k);
  }

  lemma ProgressKept(p: Policy, inside: Inside, partner: Text, session: Text, now: int, was: seq<Avp>, k: nat,
                     start: Store, end: Store, avps: seq<Avp>, i: nat, masks: seq<Text>, trail: seq<Store>,
                     originMasked: bool, changed: bool, r: Store, mask: Text, edited: bool)
    requires k < |was| && Progress(p, inside, partner, session, now, was, k, start, end, avps, i, masks, trail,
                                   originMasked, changed)
    requires Issued(p, inside, partner, session, now, was[k], end, r, mask) && !Dropped(p, inside, was[k])
    requires (Masked(p, inside, was[k]) ==> edited)
             && (!edited ==> Wire(Rewritten(p, inside, was[k], mask)) == Wire(was[k]))
    requires i < |avps|
    ensures Progress(p, inside, partner, session, now, was, k + 1, start, r,
                     avps[i := Rewritten(p, inside, was[k], mask)], i + 1,
                     masks + [mask], trail + [r], originMasked || Masked(p, inside, was[k]), changed || edited)
  {
    SanitisedNext(p, inside, was, masks, k, mask);
    TrailNext(p, inside, partner, session, now, was, trail, masks, k, r, mask);
    AnyMaskedNext(p, inside, was, k);
    hide Sanitised, Trail, AnyMasked, WireAll, Wire, Issued, Masked, Rewritten, Dropped;
    Lasts(masks, trail, mask, r);
    var done, kept := Sanitised(p, inside, was[..k], masks), Rewritten(p, inside, was[k], mask);
    ListReplaced(done, was, k, kept);
    WireNext(done, was, k, kept);
  }

  lemma Lasts(masks: seq<Text>, trail: seq<Store>, mask: Text, r: Store)
    requires trail != []
    ensures |masks + [mask]| == |masks| + 1 && (trail + [r])[0] == trail[0] && (trail + [r])[|trail|] == r
  {
  }

  lemma ProgressEnd(p: Policy, inside: Inside, partner: Text, session: Text, now: int, was: seq<Avp>, k: nat,
                    start: Store, end: Store, avps: seq<Avp>, i: nat, masks: seq<Text>, trail: seq<Store>,
                    originMasked: bool, changed: bool)
    requires k <= |was| && Progress(p, inside, partner, session, now, was, k, start, end, avps, i, masks, trail,
                                    originMasked, changed)
    requires i >= |avps|
    ensures k == |was| && |masks| == |was| && |trail| == |was| + 1 && trail[0] == start && trail[|was|] == end
    ensures Trail(p, inside, partner, session, now, was, trail, masks) && avps == Sanitised(p, inside, was, masks)
    ensures (originMasked <==> AnyMasked(p, inside, was)) && (originMasked ==> changed)
    ensures !changed ==> WireAll(avps) == WireAll(was)
  {
    hide Sanitised, Trail, AnyMasked, WireAll;
    ProgressHere(p, inside, partner, session, now, was, k, start, end, avps, i, masks, trail, originMasked, changed);
    assert was[..k] == was && was[k..] == [];
  }

  lemma NothingYet(p: Policy, inside: Inside, partner: Text, session: Text, now: int, s: Store)
    ensures Sanitised(p, inside, [], []) == [] && WireAll([]) == []
    ensures Trail(p, inside, partner, session, now, [], [s], []) && !AnyMasked(p, inside, [])
  {
  }

  /** Rewriting leaves the code and the vendor, which is what the selectors look at. */
  lemma RewrittenNames(p: Policy, inside: Inside, a: Avp, mask: Text)
    ensures Scrubbed(p, Rewritten(p, inside, a, mask)) <==> Scrubbed(p, a)
  {
    hide MustMask;
  }

  /** Removing, or replacing, the element between the part done and the part to come. */
  lemma ListRemoved(done: seq<Avp>, was: seq<Avp>, k: nat)
    requires k < |was|
    ensures var all := done + was[k..]; all[..|done|] + all[|done| + 1..] == done + was[k + 1..]
  {
  }

  lemma ListReplaced(done: seq<Avp>, was: seq<Avp>, k: nat, kept: Avp)
    requires k < |was|
    ensures (done + was[k..])[|done| := kept] == (done + [kept]) + was[k + 1..]
  {
  }

  /** Replacing an element by one of the same image keeps the image of the part done. */
  lemma WireNext(done: seq<Avp>, was: seq<Avp>, k: nat, kept: Avp)
    requires k < |was|
    ensures WireAll(done) == WireAll(was[..k]) && Wire(kept) == Wire(was[k]) ==>
              WireAll(done + [kept]) == WireAll(was[..k + 1])
  {
    SameWireNext(done, was[..k], kept, was[k]);
    hide WireAll, Wire;
    assert was[..k + 1] == was[..k] + [was[k]];
  }

  lemma SanitisedNext(p: Policy, inside: Inside, was: seq<Avp>, masks: seq<Text>, k: nat, mask: Text)
    requires k < |was| && |masks| == k
    ensures Sanitised(p, inside, was[..k + 1], masks + [mask]) ==
            Sanitised(p, inside, was[..k], masks) + if Dropped(p, inside, was[k]) then []
              else [Rewritten(p, inside, was[k], mask)]
  {
    hide Dropped, Rewritten;
    assert was[..k + 1][..k] == was[..k] && (masks + [mask])[..k] == masks;
  }

  lemma TrailNext(p: Policy, inside: Inside, partner: Text, session: Text, now: int,
                  was: seq<Avp>, trail: seq<Store>, masks: seq<Text>, k: nat, r: Store, mask: Text)
    requires k < |was| && Trail(p, inside, partner, session, now, was[..k], trail, masks)
    requires Issued(p, inside, partner, session, now, was[k], trail[k], r, mask)
    ensures Trail(p, inside, partner, session, now, was[..k + 1], trail + [r], masks + [mask])
  {
    hide Issued;
  }

  lemma AnyMaskedNext(p: Policy, inside: Inside, was: seq<Avp>, k: nat)
    requires k < |was|
    ensures AnyMasked(p, inside, was[..k + 1]) <==> AnyMasked(p, inside, was[..k]) || Masked(p, inside, was[k])
  {
    hide Masked;
    assert was[..k + 1] == was[..k] + [was[k]];
  }

  lemma SameWireNext(xs: seq<Avp>, ys: seq<Avp>, x: Avp, y: Avp)
    ensures WireAll(xs) == WireAll(ys) && Wire(x) == Wire(y) ==> WireAll(xs + [x]) == WireAll(ys + [y])
  {
    WireAllAppend(xs, [x]);
    WireAllAppend(ys, [y]);
    WireOne(x);
    WireOne(y);
  }

  lemma WireOne(a: Avp)
    ensures WireAll([a]) == Wire(a)
  {
    hide Wire;
    assert WireAll([a][1..]) == [];
  }

  // ---------------------------------------------------------------- what the masks tell

  /** The session is what the first Session-Id (263) says, or nothing. */
  lemma SessionIs(avps: seq<Avp>, i: nat)
    ensures i < |avps| && avps[i].code == 263 && (forall j :: 0 <= j < i ==> avps[j].code != 263) ==>
              SessionOf(avps) == avps[i].data
    ensures (forall j :: 0 <= j < |avps| ==> avps[j].code != 263) ==> SessionOf(avps) == []
  {
  }

  /** Without state every mask is the edge's own identity, and a decoded message leaves with nothing internal in it. */
  lemma StatelessTellsNothing(p: Policy, inside: Inside, partner: Text, session: Text, now: int, request: bool,
                              avps: seq<Avp>, trail: seq<Store>, masks: seq<Text>)
    requires Trail(p, inside, partner, session, now, avps, trail, masks) && !p.stateful
    requires forall i :: 0 <= i < |avps| ==> avps[i].children == []
    ensures forall b :: b in CarriedAll(Hidden(p, inside, request, avps, masks)) ==> !Indiscreet(p, inside, b)
  {
    hide Valid, Normalize, Hidden, CarriedAll, Indiscreet;
    forall i | 0 <= i < |avps| && avps[i].code == 264 && Internal(p, inside, avps[i].data)
      ensures masks[i] == p.edge
    {
      assert Issued(p, inside, partner, session, now, avps[i], trail[i], trail[i + 1], masks[i]);
    }
    DecodedMessageTells(p, inside, request, avps, masks);
  }

  // ---------------------------------------------------------------- from one message to a later one

  /** Every store a message leads through is valid, and genuine if the hosts masked have no bar. */
  lemma {:induction false} TrailKeeps(p: Policy, inside: Inside, partner: Text, session: Text, now: int,
                                      avps: seq<Avp>, trail: seq<Store>, masks: seq<Text>, i: nat)
    requires Trail(p, inside, partner, session, now, avps, trail, masks) && i <= |avps|
    requires Valid(trail[0]) && AllGenuine(trail[0]) && RealmIsStable(p)
    requires forall j :: 0 <= j < |avps| && Masked(p, inside, avps[j]) ==> BAR !in avps[j].data
    ensures Valid(trail[i]) && AllGenuine(trail[i])
  {
    hide Consistent, AllGenuine, Masked, RealmIsStable, MaskStep;
    if i > 0 {
      TrailKeeps(p, inside, partner, session, now, avps, trail, masks, i - 1);
      var a := avps[i - 1];
      if Masked(p, inside, a) {
        var hex: Option<Label>, victims :| MaskStep(p, partner, trail[i - 1], a.data, session, now, hex, victims,
                                                    trail[i], masks[i - 1]);
        MaskStepKeeps(p, partner, trail[i - 1], a.data, session, now, hex, victims, trail[i], masks[i - 1]);
      }
    }
  }

  /** The entry under the key stays as it is while the rest of the message is edited. */
  ghost predicate StaysThrough(trail: seq<Store>, i: nat, k: Text)
    requires i < |trail|
  {
    k in trail[i].pseudonyms &&
    forall j :: i <= j < |trail| ==> k in trail[j].pseudonyms && trail[j].pseudonyms[k] == trail[i].pseudonyms[k]
  }

  /** A message without another internal Origin-Host behind the position leaves the store alone from there. */
  lemma {:induction false} LastMaskStays(p: Policy, inside: Inside, partner: Text, session: Text, now: int,
                                         avps: seq<Avp>, trail: seq<Store>, masks: seq<Text>, i: nat, k: Text)
    requires Trail(p, inside, partner, session, now, avps, trail, masks) && i <= |avps| && k in trail[i].pseudonyms
    requires forall j :: i <= j < |avps| ==> !Masked(p, inside, avps[j])
    ensures StaysThrough(trail, i, k)
    decreases |avps| - i
  {
    hide Masked;
    if i < |avps| {
      assert Issued(p, inside, partner, session, now, avps[i], trail[i], trail[i + 1], masks[i]);
      LastMaskStays(p, inside, partner, session, now, avps, trail, masks, i + 1, k);
    }
  }

  /** Restoring puts a spelling of the host into the AVP at `d` and touches nothing else. */
  ghost predicate AddressedTo(t: Store, back: seq<Avp>, d: nat, later: int, host: Text)
    requires d < |back|
  {
    exists x :: Normalize(x) == Normalize(host) && RestoredMessage(t, back, later).1 == back[d := back[d].(data := x)]
  }

  /**
   * The way out and back: `hide` replaces the internal Origin-Host at position `i` of a message, the
   * partner answers with a message whose first Destination-Host is what it decoded there, in any
   * letter case, and that message is addressed to the host again, up to normalisation, after every
   * run that spares the entry and before its deadline.
   */
  lemma HiddenHostIsAddressed(p: Policy, inside: Inside, partner: Text, session: Text, now: int,
                              avps: seq<Avp>, trail: seq<Store>, masks: seq<Text>, i: nat,
                              ops: seq<Timed>, back: seq<Avp>, d: nat, later: int)
    requires Trail(p, inside, partner, session, now, avps, trail, masks)
    requires Valid(trail[0]) && AllGenuine(trail[0]) && p.stateful && RealmIsStable(p)
    requires forall j :: 0 <= j < |avps| && Masked(p, inside, avps[j]) ==> BAR !in avps[j].data
    requires i < |avps| && Masked(p, inside, avps[i]) && !IsGrouped(avps[i]) && masks[i] != p.edge
    requires StaysThrough(trail, i + 1, Normalize(masks[i]))
    requires Valid(trail[|avps|]) && RunOk(trail[|avps|], ops, now)
             && Outlives(trail[|avps|], ops, now, Normalize(masks[i]), later)
    requires d < |back| && back[d].code == 293 && forall j :: 0 <= j < d ==> back[j].code != 293
    requires AnyCase(back[d].data, CarriedAvp(Rewritten(p, inside, avps[i], masks[i])).data)
    ensures AddressedTo(StoreAfter(trail[|avps|], ops, now), back, d, later, avps[i].data)
  {
    TrailKeeps(p, inside, partner, session, now, avps, trail, masks, i);
    TrailKeeps(p, inside, partner, session, now, avps, trail, masks, i + 1);
    var s, r, host, mask := trail[i], trail[i + 1], avps[i].data, masks[i];
    var hex: Option<Label>, victims := IssuedBy(p, inside, partner, session, now, avps[i], s, r, mask);
    assert CarriedAvp(Rewritten(p, inside, avps[i], mask)).data == mask;
    var n := |avps|;
    var t := StoreAfter(trail[n], ops, now);
    var k := Normalize(mask);
    hide *;
    Outlived(trail[n], ops, now, k, later);
    Stays(trail, i + 1, k);
    SameDeadline(trail[n], ops, now, k, later);
    EntryIsRestored(p, partner, s, host, session, now, hex.value, victims, r, mask, t, back[d].data, later);
    FoundAt(back, 293, d);
    BackIsRestored(t, back, d, later, host);
  }

  lemma Stays(trail: seq<Store>, i: nat, k: Text)
    requires i < |trail| && StaysThrough(trail, i, k)
    ensures k in trail[i].pseudonyms && k in trail[|trail| - 1].pseudonyms
            && trail[|trail| - 1].pseudonyms[k] == trail[i].pseudonyms[k]
  {
  }

  lemma SameDeadline(r: Store, ops: seq<Timed>, now: int, k: Text, later: int)
    requires Valid(r) && RunOk(r, ops, now) && Outlives(r, ops, now, k, later)
    ensures k in r.pseudonyms && later < r.pseudonyms[k].expiresAt
  {
    hide Valid, RunOk, Spares;
  }

  /** A mask other than the edge's own identity was issued by the store. */
  lemma IssuedBy(p: Policy, inside: Inside, partner: Text, session: Text, now: int, a: Avp, s: Store, r: Store,
                 mask: Text)
      returns (hex: Option<Label>, victims: seq<Text>)
    requires Issued(p, inside, partner, session, now, a, s, r, mask) && Masked(p, inside, a) && p.stateful
             && mask != p.edge
    ensures Valid(s) && hex.Some? && MaskStep(p, partner, s, a.data, session, now, hex, victims, r, mask)
  {
    hide Consistent, FindPseudonym, Put, Legal, Trimmed, MakeEntry, NewPseudonym, Masked;
    hex, victims :| MaskStep(p, partner, s, a.data, session, now, hex, victims, r, mask);
    if FindPseudonym(s, a.data, session, now).1.Some? {
      hex := Some([48]);
    }
  }

  /** FindAvp finds the first AVP with the code. */
  lemma FoundAt(avps: seq<Avp>, code: u32, d: nat)
    requires d < |avps| && avps[d].code == code && forall j :: 0 <= j < d ==> avps[j].code != code
    ensures FindAvp(avps, code) == Some(d)
  {
  }

  lemma BackIsRestored(t: Store, back: seq<Avp>, d: nat, later: int, host: Text)
    requires FindAvp(back, 293) == Some(d) && Restores(t, back[d].data, later, host)
    ensures AddressedTo(t, back, d, later, host)
  {
    hide Restore, Normalize, FindAvp;
  }
}
