/**
 * What topology hiding does to the AVPs of a message: which are removed, which are rewritten and
 * with what, as a function of the list. `masks` gives, for each position, the outward identity
 * chosen for an Origin-Host there; how it is chosen is the subject of `HidingStore`.
 */
module Hiding {
  import opened Bytes
  import opened Names
  import opened Codec

  const ORIGIN_HOST: u32 := 264
  const ORIGIN_REALM: u32 := 296
  const DESTINATION_HOST: u32 := 293
  const SESSION_ID: u32 := 263
  const ERROR_REPORTING_HOST: u32 := 294
  const ROUTE_RECORD: u32 := 282
  const PROXY_INFO: u32 := 284
  const PROXY_HOST: u32 := 280
  const HOST_IP_ADDRESS: u32 := 257
  const ORIGIN_STATE_ID: u32 := 278
  const FLAG_MANDATORY: byte := 0x40

  /** A partner's policy, its optional flags already resolved to their default. */
  datatype Policy = Policy(
    stateful: bool, edge: Text, prefix: Text, realm: Text, ttl: int,
    hideRealm: bool, hideErrorHost: bool, hideRecords: bool, hideProxy: bool, hideAddress: bool, hideState: bool,
    scrub: seq<Selector>)

  /** Whether a normalised identity belongs to the internal side. */
  type Inside = Text -> bool

  predicate MustMask(p: Policy, inside: Inside, host: Text) {
    host != [] && Normalize(host) != Normalize(p.edge) && inside(Normalize(host))
  }

  function FindAvp(avps: seq<Avp>, code: u32): (i: Option<nat>)
    ensures i.Some? ==> i.value < |avps| && avps[i.value].code == code && forall j :: 0 <= j < i.value ==>
              avps[j].code != code
    ensures i == None ==> forall j :: 0 <= j < |avps| ==> avps[j].code != code
  {
    if avps == [] then None
    else if avps[0].code == code then Some(0)
    else
      var i := FindAvp(avps[1..], code);
      if i == None then None else Some(i.value + 1)
  }

  /** A Proxy-Info is internal unless its Proxy-Host can be read and need not be masked. */
  predicate ProxyIsInternal(p: Policy, inside: Inside, a: Avp) {
    var i := FindAvp(Opened(a).children, PROXY_HOST);
    i == None || MustMask(p, inside, Opened(a).children[i.value].data)
  }

  predicate Masked(p: Policy, inside: Inside, a: Avp) { a.code == ORIGIN_HOST && MustMask(p, inside, a.data) }

  predicate Scrubbed(p: Policy, a: Avp) { Selector(a.code, a.vendor) in p.scrub }

  /** What the switch on the code removes; the selectors may remove more. */
  predicate DroppedByCode(p: Policy, inside: Inside, a: Avp) {
    || (a.code == ROUTE_RECORD && p.hideRecords && MustMask(p, inside, a.data))
    || (a.code == PROXY_INFO && p.hideProxy && ProxyIsInternal(p, inside, a))
    || (a.code == HOST_IP_ADDRESS && p.hideAddress)
    || (a.code == ORIGIN_STATE_ID && p.hideState)
  }

  predicate Dropped(p: Policy, inside: Inside, a: Avp) { DroppedByCode(p, inside, a) || Scrubbed(p, a) }

  /** The AVP as it stays in the message. Looking into a Proxy-Info decodes it. */
  function Rewritten(p: Policy, inside: Inside, a: Avp, mask: Text): Avp {
    if Masked(p, inside, a) then a.(data := mask)
    else if a.code == ERROR_REPORTING_HOST && p.hideErrorHost && MustMask(p, inside, a.data) then a.(data := p.edge)
    else if a.code == PROXY_INFO && p.hideProxy then Opened(a)
    else a
  }

  function Sanitised(p: Policy, inside: Inside, avps: seq<Avp>, masks: seq<Text>): seq<Avp>
    requires |masks| == |avps|
  {
    if avps == [] then []
    else
      var n := |avps| - 1;
      Sanitised(p, inside, avps[..n], masks[..n])
        + if Dropped(p, inside, avps[n]) then [] else [Rewritten(p, inside, avps[n], masks[n])]
  }

  /** The realm the partner may see. */
  function OutwardRealm(p: Policy): Text {
    if p.realm != [] then p.realm
    else if DOT in p.edge then AfterDot(p.edge)
    else []
  }

  function AfterDot(s: Text): Text
    requires DOT in s
  {
    if s[0] == DOT then s[1..] else AfterDot(s[1..])
  }

  /** The configured pseudonym realm comes first; without one it is what follows the first dot (46) of the edge. */
  lemma OutwardRealmIs(p: Policy) returns (i: nat)
    ensures p.realm != [] ==> OutwardRealm(p) == p.realm
    ensures p.realm == [] && 46 !in p.edge ==> OutwardRealm(p) == []
    ensures p.realm == [] && 46 in p.edge ==>
      i < |p.edge| && p.edge[i] == 46 && 46 !in p.edge[..i] && OutwardRealm(p) == p.edge[i + 1..]
  {
    i := 0;
    if DOT in p.edge {
      i := FirstDot(p.edge);
    }
  }

  lemma {:induction false} FirstDot(s: Text) returns (i: nat)
    requires DOT in s
    ensures i < |s| && s[i] == DOT && DOT !in s[..i] && AfterDot(s) == s[i + 1..]
  {
    i := 0;
    if s[0] != DOT {
      var j := FirstDot(s[1..]);
      i := j + 1;
      assert s[..i] == [s[0]] + s[1..][..j];
    }
  }

  predicate AnyMasked(p: Policy, inside: Inside, avps: seq<Avp>) {
    exists i :: 0 <= i < |avps| && Masked(p, inside, avps[i])
  }

  /** The first Origin-Realm follows a masked Origin-Host. */
  function WithRealm(p: Policy, avps: seq<Avp>): seq<Avp> {
    var i := FindAvp(avps, ORIGIN_REALM);
    if i == None || OutwardRealm(p) == [] || Lower(avps[i.value].data) == Lower(OutwardRealm(p)) then avps
    else avps[i.value := avps[i.value].(data := OutwardRealm(p))]
  }

  predicate HasRecord(avps: seq<Avp>, identity: Text) {
    exists i :: 0 <= i < |avps| && avps[i].code == ROUTE_RECORD && Normalize(avps[i].data) == Normalize(identity)
  }

  function EdgeRecord(p: Policy): Avp { Avp(ROUTE_RECORD, FLAG_MANDATORY, 0, p.edge, []) }

  function WithRecord(p: Policy, request: bool, avps: seq<Avp>): seq<Avp> {
    if p.hideRecords && request && !HasRecord(avps, p.edge) then avps + [EdgeRecord(p)] else avps
  }

  /** The whole of hide. */
  function Hidden(p: Policy, inside: Inside, request: bool, avps: seq<Avp>, masks: seq<Text>): seq<Avp>
    requires |masks| == |avps|
  {
    var kept := Sanitised(p, inside, avps, masks);
    WithRecord(p, request, if p.hideRealm && AnyMasked(p, inside, avps) then WithRealm(p, kept) else kept)
  }

  // ---------------------------------------------------------------- nothing internal is left

  lemma {:induction false} SanitisedComesFrom(p: Policy, inside: Inside, avps: seq<Avp>, masks: seq<Text>, b: Avp)
    requires |masks| == |avps|
    ensures b in Sanitised(p, inside, avps, masks) <==>
            exists i :: 0 <= i < |avps| && !Dropped(p, inside, avps[i]) && b == Rewritten(p, inside, avps[i], masks[i])
  {
    if avps != [] {
      var n := |avps| - 1;
      SanitisedComesFrom(p, inside, avps[..n], masks[..n], b);
      hide Dropped, Rewritten;
      assert forall i :: 0 <= i < n ==> avps[..n][i] == avps[i] && masks[..n][i] == masks[i];
    }
  }

  /** The code of an AVP never changes. */
  lemma RewrittenCode(p: Policy, inside: Inside, a: Avp, mask: Text)
    ensures Rewritten(p, inside, a, mask).code == a.code
    ensures a.code != PROXY_INFO || !p.hideProxy ==> Rewritten(p, inside, a, mask).children == a.children
  {
    hide MustMask, ParseAll;
  }

  /** An AVP that tells the partner what the policy hides. */
  predicate Leaks(p: Policy, inside: Inside, a: Avp) {
    || (a.code == ORIGIN_HOST && MustMask(p, inside, a.data))
    || (a.code == ERROR_REPORTING_HOST && p.hideErrorHost && MustMask(p, inside, a.data))
    || DroppedByCode(p, inside, a)
  }

  lemma {:induction false} SameFind(xs: seq<Avp>, ys: seq<Avp>, code: u32)
    requires |xs| == |ys| && forall i :: 0 <= i < |xs| ==> xs[i].code == ys[i].code
    ensures FindAvp(xs, code) == FindAvp(ys, code)
  {
    if xs != [] {
      SameFind(xs[1..], ys[1..], code);
    }
  }

  // What the partner decodes of a coherent AVP has the same data, and the same identity in a Proxy-Info.

  lemma CarriedData(a: Avp)
    requires Coherent(a)
    ensures CarriedAvp(a).code == a.code && CarriedAvp(a).data == a.data
  {
    CoherentBody(a);
  }

  /** The children the receiver finds have the codes and the data of those at hand. */
  lemma CarriedChildren(a: Avp)
    requires Coherent(a)
    ensures var there, here := Opened(CarriedAvp(a)).children, Opened(a).children;
            |there| == |here| && forall i :: 0 <= i < |here| ==>
              there[i].code == here[i].code && there[i].data == here[i].data
  {
    hide ParseAll, Body;
    CoherentBody(a);
    var there := Opened(CarriedAvp(a)).children;
    if IsGrouped(a) {
      assert there == FlattenAll(a.children);
      forall i | 0 <= i < |there|
        ensures there[i].code == a.children[i].code && there[i].data == a.children[i].data
      {
        CoherentBody(a.children[i]);
      }
    }
  }

  lemma CarriedProxy(p: Policy, inside: Inside, a: Avp)
    requires Coherent(a)
    ensures ProxyIsInternal(p, inside, CarriedAvp(a)) <==> ProxyIsInternal(p, inside, a)
  {
    CarriedChildren(a);
    hide MustMask, Opened, CarriedAvp;
    SameFind(Opened(CarriedAvp(a)).children, Opened(a).children, PROXY_HOST);
  }

  lemma CarriedDropped(p: Policy, inside: Inside, a: Avp)
    requires Coherent(a)
    ensures DroppedByCode(p, inside, CarriedAvp(a)) <==> DroppedByCode(p, inside, a)
  {
    CarriedData(a);
    CarriedProxy(p, inside, a);
    hide MustMask, ProxyIsInternal, CarriedAvp;
  }

  lemma OpenedProxy(p: Policy, inside: Inside, a: Avp)
    ensures ProxyIsInternal(p, inside, Opened(a)) <==> ProxyIsInternal(p, inside, a)
  {
    hide MustMask, ParseAll;
    assert Opened(Opened(a)) == Opened(a);
  }

  /** A reporting host the policy replaces. */
  predicate Reported(p: Policy, inside: Inside, a: Avp) {
    a.code == ERROR_REPORTING_HOST && p.hideErrorHost && MustMask(p, inside, a.data)
  }

  /** A rewritten identity the rewriting does not reach, or the mask itself, is internal. */
  predicate StillTells(p: Policy, inside: Inside, a: Avp, mask: Text) {
    || (Masked(p, inside, a) && (IsGrouped(a) || MustMask(p, inside, mask)))
    || (Reported(p, inside, a) && IsGrouped(a))
  }

  /**
   * A kept AVP tells the partner what the policy hides exactly when it is an identity to be replaced
   * that had been opened into children, which are what is sent, or whose mask is itself internal.
   */
  lemma RewrittenLeaks(p: Policy, inside: Inside, a: Avp, mask: Text)
    requires Coherent(a) && !Dropped(p, inside, a)
    ensures Leaks(p, inside, CarriedAvp(Rewritten(p, inside, a, mask))) <==> StillTells(p, inside, a, mask)
  {
    if Masked(p, inside, a) || Reported(p, inside, a) {
      ReplacedLeaks(p, inside, a, mask);
    } else {
      var o := Rewritten(p, inside, a, mask);
      OpenedCoherent(a);
      OpenedProxy(p, inside, a);
      CarriedDropped(p, inside, o);
      CarriedData(o);
      hide Opened, ProxyIsInternal, MustMask, CarriedAvp;
    }
  }

  lemma ReplacedLeaks(p: Policy, inside: Inside, a: Avp, mask: Text)
    requires Coherent(a) && (Masked(p, inside, a) || Reported(p, inside, a))
    ensures Leaks(p, inside, CarriedAvp(Rewritten(p, inside, a, mask))) <==> StillTells(p, inside, a, mask)
  {
    var o := Rewritten(p, inside, a, mask);
    CoherentBody(a);
    assert Body(o) == if IsGrouped(a) then a.data else o.data;
    hide Body, ProxyIsInternal;
    assert !MustMask(p, inside, p.edge);
  }

  lemma WithRealmKeeps(p: Policy, inside: Inside, avps: seq<Avp>)
    ensures |WithRealm(p, avps)| == |avps|
    ensures forall i :: 0 <= i < |avps| ==> WithRealm(p, avps)[i].code == avps[i].code
    ensures forall i :: 0 <= i < |avps| && avps[i].code != ORIGIN_REALM ==> WithRealm(p, avps)[i] == avps[i]
  {
  }

  /**
   * What the partner decodes tells it nothing the policy hides - no internal Origin-Host, reporting
   * host, record or proxy, no address and no state identifier - exactly when no kept AVP still tells:
   * no identity to be replaced had been opened into children and no mask issued is itself internal.
   * The children of what `hide` is given encode its data: a decoded message has none, and screening
   * keeps that so (`Codec.ScreenCoherent`).
   */
  lemma NothingLeaks(p: Policy, inside: Inside, request: bool, avps: seq<Avp>, masks: seq<Text>)
    requires |masks| == |avps| && forall i :: 0 <= i < |avps| ==> Coherent(avps[i])
    ensures (forall b :: b in CarriedAll(Hidden(p, inside, request, avps, masks)) ==> !Leaks(p, inside, b))
       <==> (forall i :: 0 <= i < |avps| && !Dropped(p, inside, avps[i]) ==> !StillTells(p, inside, avps[i], masks[i]))
  {
    var kept := Sanitised(p, inside, avps, masks);
    var out := Hidden(p, inside, request, avps, masks);
    SameLeaks(p, inside, request, avps, masks);
    forall b
      ensures b in kept <==> exists i ::
                0 <= i < |avps| && !Dropped(p, inside, avps[i]) && b == Rewritten(p, inside, avps[i], masks[i])
    {
      SanitisedComesFrom(p, inside, avps, masks, b);
    }
    forall i | 0 <= i < |avps| && !Dropped(p, inside, avps[i])
      ensures Leaks(p, inside, CarriedAvp(Rewritten(p, inside, avps[i], masks[i])))
              <==> StillTells(p, inside, avps[i], masks[i])
      ensures Rewritten(p, inside, avps[i], masks[i]) in kept
    {
      RewrittenLeaks(p, inside, avps[i], masks[i]);
    }
    AllCarried(p, inside, out);
    hide Leaks, Dropped, Rewritten, StillTells, Sanitised, Hidden, CarriedAvp, CarriedAll, Coherent;
  }

  lemma AllCarried(p: Policy, inside: Inside, avps: seq<Avp>)
    ensures (forall b :: b in CarriedAll(avps) ==> !Leaks(p, inside, b))
            <==> (forall b :: b in avps ==> !Leaks(p, inside, CarriedAvp(b)))
  {
    hide Leaks, CarriedAvp;
    forall b | b in avps
      ensures CarriedAvp(b) in CarriedAll(avps)
    {
      var i :| 0 <= i < |avps| && avps[i] == b;
      assert CarriedAll(avps)[i] == CarriedAvp(b);
    }
  }

  lemma RealmTellsNothing(p: Policy, inside: Inside, a: Avp)
    ensures a.code == ORIGIN_REALM ==> !Leaks(p, inside, CarriedAvp(a))
  {
    hide Body, MustMask, ProxyIsInternal;
  }

  lemma RecordTellsNothing(p: Policy, inside: Inside)
    ensures !Leaks(p, inside, CarriedAvp(EdgeRecord(p)))
  {
    assert CarriedAvp(EdgeRecord(p)) == EdgeRecord(p);
    hide Normalize, ProxyIsInternal;
  }

  /** The realm and the edge's own record add no leak and take none away. */
  lemma SameLeaks(p: Policy, inside: Inside, request: bool, avps: seq<Avp>, masks: seq<Text>)
    requires |masks| == |avps|
    ensures (forall b :: b in Hidden(p, inside, request, avps, masks) ==> !Leaks(p, inside, CarriedAvp(b)))
       <==> (forall b :: b in Sanitised(p, inside, avps, masks) ==> !Leaks(p, inside, CarriedAvp(b)))
  {
    hide Sanitised, WithRealm, Normalize, HasRecord, AnyMasked, Leaks, CarriedAvp;
    var kept := Sanitised(p, inside, avps, masks);
    WithRealmKeeps(p, inside, kept);
    var mid := if p.hideRealm && AnyMasked(p, inside, avps) then WithRealm(p, kept) else kept;
    forall i | 0 <= i < |kept|
      ensures Leaks(p, inside, CarriedAvp(mid[i])) <==> Leaks(p, inside, CarriedAvp(kept[i]))
    {
      RealmTellsNothing(p, inside, kept[i]);
      RealmTellsNothing(p, inside, mid[i]);
    }
    RecordTellsNothing(p, inside);
    assert (forall b :: b in mid ==> !Leaks(p, inside, CarriedAvp(b)))
           <==> forall i :: 0 <= i < |mid| ==> !Leaks(p, inside, CarriedAvp(mid[i]));
    assert (forall b :: b in kept ==> !Leaks(p, inside, CarriedAvp(b)))
           <==> forall i :: 0 <= i < |kept| ==> !Leaks(p, inside, CarriedAvp(kept[i]));
  }

  /**
   * A masked Origin-Host goes with the outward realm, if there is one: the first Origin-Realm the
   * partner decodes is that realm exactly when the one kept had not been opened into children, or said
   * so already.
   */
  lemma RealmFollows(p: Policy, inside: Inside, request: bool, avps: seq<Avp>, masks: seq<Text>)
    requires |masks| == |avps| && p.hideRealm && AnyMasked(p, inside, avps) && OutwardRealm(p) != []
    ensures var kept, out := Sanitised(p, inside, avps, masks), CarriedAll(Hidden(p, inside, request, avps, masks));
            var i := FindAvp(out, 296);
            && i == FindAvp(kept, 296)
            && (i.Some? && Coherent(kept[i.value]) ==>
                  (Lower(out[i.value].data) == Lower(OutwardRealm(p)) <==>
                   !IsGrouped(kept[i.value]) || Lower(kept[i.value].data) == Lower(OutwardRealm(p))))
  {
    hide Sanitised, AnyMasked, HasRecord, Lower, OutwardRealm;
    var kept := Sanitised(p, inside, avps, masks);
    var mid := WithRealm(p, kept);
    SameFind(kept, mid, ORIGIN_REALM);
    FindAppend(mid, EdgeRecord(p), ORIGIN_REALM);
    var out := Hidden(p, inside, request, avps, masks);
    SameFind(out, CarriedAll(out), ORIGIN_REALM);
    var i := FindAvp(kept, ORIGIN_REALM);
    if i.Some? && Coherent(kept[i.value]) {
      CoherentBody(kept[i.value]);
      assert out[i.value] == mid[i.value];
      assert Body(mid[i.value]) == if IsGrouped(kept[i.value]) then kept[i.value].data else mid[i.value].data;
    }
  }

  lemma {:induction false} FindAppend(xs: seq<Avp>, a: Avp, code: u32)
    requires a.code != code
    ensures FindAvp(xs + [a], code) == FindAvp(xs, code)
  {
    if xs != [] {
      FindAppend(xs[1..], a, code);
      assert (xs + [a])[1..] == xs[1..] + [a];
    }
  }

  /** An AVP a selector names is gone, unless it is the edge's own record added at the end. */
  lemma ScrubbedAreGone(p: Policy, inside: Inside, request: bool, avps: seq<Avp>, masks: seq<Text>, b: Avp)
    requires |masks| == |avps| && b in Hidden(p, inside, request, avps, masks)
    requires Selector(b.code, b.vendor) in p.scrub
    ensures b == Avp(282, 64, 0, p.edge, []) && p.hideRecords && request
  {
    hide Sanitised, Normalize, HasRecord, AnyMasked, OutwardRealm;
    var kept := Sanitised(p, inside, avps, masks);
    WithRealmNames(p, kept);
    forall i | 0 <= i < |kept|
      ensures !Scrubbed(p, kept[i])
    {
      SanitisedComesFrom(p, inside, avps, masks, kept[i]);
      KeptNames(p, inside, avps, masks, kept[i]);
    }
    var out := Hidden(p, inside, request, avps, masks);
    var i :| 0 <= i < |out| && out[i] == b;
  }

  lemma WithRealmNames(p: Policy, avps: seq<Avp>)
    ensures |WithRealm(p, avps)| == |avps|
    ensures forall i :: 0 <= i < |avps| ==> (Scrubbed(p, WithRealm(p, avps)[i]) <==> Scrubbed(p, avps[i]))
  {
    hide Lower, OutwardRealm;
  }

  lemma KeptNames(p: Policy, inside: Inside, avps: seq<Avp>, masks: seq<Text>, b: Avp)
    requires |masks| == |avps|
    requires exists i :: 0 <= i < |avps| && !Dropped(p, inside, avps[i]) && b == Rewritten(p, inside, avps[i], masks[i])
    ensures !Scrubbed(p, b)
  {
    hide MustMask, ProxyIsInternal;
    var i :| 0 <= i < |avps| && !Dropped(p, inside, avps[i]) && b == Rewritten(p, inside, avps[i], masks[i]);
    assert b.code == avps[i].code && b.vendor == avps[i].vendor;
  }

  /**
   * A request leaves with the edge in its Route-Record chain (code 282) when internal records are hidden;
   * a record that is added comes last, with the M flag (64) and no vendor.
   */
  lemma EdgeIsRecorded(p: Policy, inside: Inside, avps: seq<Avp>, masks: seq<Text>)
    requires |masks| == |avps| && p.hideRecords
    ensures var out := Hidden(p, inside, true, avps, masks);
      && (exists i :: 0 <= i < |out| && out[i].code == 282 && Normalize(out[i].data) == Normalize(p.edge))
      && (|out| > |Sanitised(p, inside, avps, masks)| ==> out[|out| - 1] == Avp(282, 64, 0, p.edge, []))
  {
    hide Sanitised, WithRealm, Normalize;
    WithRealmKeeps(p, inside, Sanitised(p, inside, avps, masks));
    var out := Hidden(p, inside, true, avps, masks);
    assert out[|out| - 1] == EdgeRecord(p) || HasRecord(out, p.edge);
  }

  // ---------------------------------------------------------------- the policy in numbers

  /** An identity of the internal side other than the edge's own. */
  predicate Internal(p: Policy, inside: Inside, host: Text) {
    host != [] && inside(Normalize(host)) && Normalize(host) != Normalize(p.edge)
  }

  /**
   * What the partner must not read: an internal Origin-Host (264) and, where the policy says so, an
   * internal Error-Reporting-Host (294) or Route-Record (282), a Host-IP-Address (257), an
   * Origin-State-Id (278), or a Proxy-Info (284) whose first Proxy-Host (280) is internal or cannot be
   * read.
   */
  ghost predicate Indiscreet(p: Policy, inside: Inside, b: Avp) {
    || (b.code == 264 && Internal(p, inside, b.data))
    || (b.code == 294 && p.hideErrorHost && Internal(p, inside, b.data))
    || (b.code == 282 && p.hideRecords && Internal(p, inside, b.data))
    || (b.code == 257 && p.hideAddress)
    || (b.code == 278 && p.hideState)
    || (b.code == 284 && p.hideProxy &&
        !exists i: nat :: ParseAll(b.data).Ok? && ReadableProxy(p, inside, ParseAll(b.data).value, i))
  }

  ghost predicate ReadableProxy(p: Policy, inside: Inside, kids: seq<Avp>, i: nat) {
    i < |kids| && kids[i].code == 280 && (forall j :: 0 <= j < i ==> kids[j].code != 280)
    && !Internal(p, inside, kids[i].data)
  }

  /** For an AVP as it is decoded this is what the policy hides. */
  lemma LeaksMeans(p: Policy, inside: Inside, b: Avp)
    requires b.children == []
    ensures Leaks(p, inside, b) <==> Indiscreet(p, inside, b)
  {
    if b.code == 284 {
      ProxyMeans(p, inside, b);
    }
    hide Normalize, ProxyIsInternal;
  }

  /** The children of an AVP as decoded are what its data read as, if they read as anything. */
  lemma OpenedChildren(b: Avp)
    requires b.children == []
    ensures Opened(b).children == if ParseAll(b.data).Ok? then ParseAll(b.data).value else []
  {
    if b.data == [] {
      NoOctets();
    } else if |b.data| < 8 {
      assert ParseAvp(b.data).Err?;
    }
    hide ParseAvp;
  }

  lemma FirstProxy(p: Policy, inside: Inside, kids: seq<Avp>)
    ensures var f := FindAvp(kids, PROXY_HOST);
            (f.Some? && !Internal(p, inside, kids[f.value].data))
              <==> exists i: nat :: ReadableProxy(p, inside, kids, i)
  {
    hide Internal;
    var f := FindAvp(kids, PROXY_HOST);
    if f.Some? && !Internal(p, inside, kids[f.value].data) {
      assert ReadableProxy(p, inside, kids, f.value);
    }
    forall i: nat | ReadableProxy(p, inside, kids, i)
      ensures f == Some(i)
    {
      assert kids[i].code == PROXY_HOST;
    }
  }

  lemma ProxyMeans(p: Policy, inside: Inside, b: Avp)
    requires b.children == []
    ensures !ProxyIsInternal(p, inside, b) <==>
            exists i: nat :: ParseAll(b.data).Ok? && ReadableProxy(p, inside, ParseAll(b.data).value, i)
  {
    OpenedChildren(b);
    FirstProxy(p, inside, Opened(b).children);
    hide Opened, ParseAll, FindAvp, Normalize, ReadableProxy;
    if ParseAll(b.data).Err? {
      assert FindAvp([], PROXY_HOST) == None;
    }
  }

  lemma NoOctets()
    ensures ParseAll([]) == Ok([])
  {
  }

  /**
   * A message as it was decoded leaves with nothing in it that the partner must not read exactly when no
   * mask put in place of an internal Origin-Host is itself internal, except where the AVP is removed.
   */
  lemma DecodedMessageTells(p: Policy, inside: Inside, request: bool, avps: seq<Avp>, masks: seq<Text>)
    requires |masks| == |avps| && forall i :: 0 <= i < |avps| ==> avps[i].children == []
    ensures (forall b :: b in CarriedAll(Hidden(p, inside, request, avps, masks)) ==> !Indiscreet(p, inside, b))
       <==> (forall i :: 0 <= i < |avps| && avps[i].code == 264 && Selector(264, avps[i].vendor) !in p.scrub ==>
               Internal(p, inside, avps[i].data) ==> !Internal(p, inside, masks[i]))
  {
    var out := CarriedAll(Hidden(p, inside, request, avps, masks));
    forall b | b in out
      ensures Leaks(p, inside, b) <==> Indiscreet(p, inside, b)
    {
      LeaksMeans(p, inside, b);
    }
    NothingLeaks(p, inside, request, avps, masks);
    hide Leaks, Indiscreet, Hidden, CarriedAll, Normalize, ProxyIsInternal;
  }

  // ---------------------------------------------------------------- what is left alone

  /** Nothing in the policy concerns this AVP. */
  predicate Plain(p: Policy, a: Avp) {
    && a.code !in {ORIGIN_HOST, ORIGIN_REALM, ERROR_REPORTING_HOST, ROUTE_RECORD, PROXY_INFO, HOST_IP_ADDRESS,
        ORIGIN_STATE_ID}
    && !Scrubbed(p, a)
  }

  function Plains(p: Policy, avps: seq<Avp>): seq<Avp> {
    if avps == [] then []
    else Plains(p, avps[..|avps| - 1]) + if Plain(p, avps[|avps| - 1]) then [avps[|avps| - 1]] else []
  }

  lemma PlainsAppend(p: Policy, avps: seq<Avp>, a: Avp)
    ensures Plains(p, avps + [a]) == Plains(p, avps) + if Plain(p, a) then [a] else []
  {
    assert (avps + [a])[..|avps|] == avps;
  }

  lemma PlainIsKept(p: Policy, inside: Inside, a: Avp, mask: Text)
    ensures Plain(p, a) ==> !Dropped(p, inside, a) && Rewritten(p, inside, a, mask) == a
    ensures !Plain(p, a) && !Dropped(p, inside, a) ==> !Plain(p, Rewritten(p, inside, a, mask))
  {
    RewrittenCode(p, inside, a, mask);
    hide MustMask, ProxyIsInternal, Opened;
  }

  lemma {:induction false} SanitisedKeepsPlains(p: Policy, inside: Inside, avps: seq<Avp>, masks: seq<Text>)
    requires |masks| == |avps|
    ensures Plains(p, Sanitised(p, inside, avps, masks)) == Plains(p, avps)
  {
    if avps != [] {
      var n := |avps| - 1;
      SanitisedKeepsPlains(p, inside, avps[..n], masks[..n]);
      PlainsAppend(p, avps[..n], avps[n]);
      assert avps == avps[..n] + [avps[n]];
      PlainIsKept(p, inside, avps[n], masks[n]);
      PlainsAppend(p, Sanitised(p, inside, avps[..n], masks[..n]), Rewritten(p, inside, avps[n], masks[n]));
      var kept := Sanitised(p, inside, avps[..n], masks[..n]);
      assert Dropped(p, inside, avps[n]) ==> Sanitised(p, inside, avps, masks) == kept;
      hide Plain, Dropped, Rewritten, Plains;
    }
  }

  lemma {:induction false} PlainsPointwise(p: Policy, xs: seq<Avp>, ys: seq<Avp>)
    requires |xs| == |ys| && forall i :: 0 <= i < |xs| ==> xs[i] == ys[i] || (!Plain(p, xs[i]) && !Plain(p, ys[i]))
    ensures Plains(p, xs) == Plains(p, ys)
  {
    hide Plain;
    if xs != [] {
      PlainsPointwise(p, xs[..|xs| - 1], ys[..|ys| - 1]);
    }
  }

  /** The AVPs the policy does not concern leave in the order and with the content they came with. */
  lemma PlainsUntouched(p: Policy, inside: Inside, request: bool, avps: seq<Avp>, masks: seq<Text>)
    requires |masks| == |avps|
    ensures Plains(p, Hidden(p, inside, request, avps, masks)) == Plains(p, avps)
  {
    hide Sanitised, WithRealm, Plains, HasRecord;
    SanitisedKeepsPlains(p, inside, avps, masks);
    var kept := Sanitised(p, inside, avps, masks);
    WithRealmKeeps(p, inside, kept);
    PlainsPointwise(p, kept, WithRealm(p, kept));
    var mid := if p.hideRealm && AnyMasked(p, inside, avps) then WithRealm(p, kept) else kept;
    PlainsAppend(p, mid, EdgeRecord(p));
  }

  // ---------------------------------------------------------------- what reaches the wire

  /**
   * Rewriting the data of an AVP changes what is sent exactly when the AVP was not already decoded
   * into children: a grouped AVP is encoded from its children.
   */
  lemma RewriteIsSent(a: Avp, data: Text)
    requires data != a.data && HeaderSize(a) + |data| <= MAX_MESSAGE && HeaderSize(a) + |a.data| <= MAX_MESSAGE
    ensures Wire(a.(data := data)) != Wire(a) <==> !IsGrouped(a)
  {
    if IsGrouped(a) {
      SameChildren(a, data);
    } else {
      NewData(a, data);
    }
  }

  lemma SameChildren(a: Avp, data: Text)
    requires IsGrouped(a)
    ensures Wire(a.(data := data)) == Wire(a)
  {
    assert Body(a.(data := data)) == Body(a);
  }

  lemma NewData(a: Avp, data: Text)
    requires !IsGrouped(a) && data != a.data && HeaderSize(a) + |data| <= MAX_MESSAGE
             && HeaderSize(a) + |a.data| <= MAX_MESSAGE
    ensures Wire(a.(data := data)) != Wire(a)
  {
    var b := a.(data := data);
    LengthAndBody(a);
    LengthAndBody(b);
    if |data| != |a.data| {
      LengthsDiffer(HeaderSize(a) + |a.data|, HeaderSize(a) + |data|);
    }
    hide Wire, Body, BE, U, IsVendor;
  }

  lemma LengthsDiffer(x: nat, y: nat)
    requires x != y && x <= MAX_MESSAGE && y <= MAX_MESSAGE
    ensures BE(x, 3) != BE(y, 3)
  {
    hide BE, U;
    UofBE3(x);
    UofBE3(y);
  }

  lemma LengthAndBody(a: Avp)
    requires !IsGrouped(a)
    ensures var len := HeaderSize(a) + |a.data|;
            8 <= len <= |Wire(a)| && Wire(a)[5..8] == BE(len, 3) && Wire(a)[HeaderSize(a)..len] == a.data
  {
    WireSlices(a, []);
    assert Body(a) == a.data;
    hide Wire, BE, Body;
    assert Wire(a) + [] == Wire(a);
  }

  // ---------------------------------------------------------------- an identity that reads as AVPs

  /** ".ims.example.com" */
  const SUFFIX: Text := [DOT, 105, 109, 115, DOT, 101, 120, 97, 109, 112, 108, 101, DOT, 99, 111, 109]

  /** An AVP with code 0x686F7374, which spells "host", and no flags. */
  const INNER: Avp := Avp(0x686F7374, 0, 0, SUFFIX, [])

  /** "host", three zero octets and the AVP's length, and the suffix. */
  const DISGUISED: Text := [104, 111, 115, 116, 0, 0, 0, 24] + SUFFIX

  lemma InnerHeader()
    ensures AvpHeader(INNER, 24) == [104, 111, 115, 116, 0, 0, 0, 24]
  {
    assert BE(0x686F7374, 4) == [104, 111, 115, 116] by {
      assert BE(0x68, 1) == [104];
      assert BE(0x686F, 2) == [104, 111];
      assert BE(0x686F73, 3) == [104, 111, 115];
    }
    assert BE(24, 3) == [0, 0, 24] by {
      assert BE(0, 1) == [0];
      assert BE(0, 2) == [0, 0];
    }
  }

  /** The identity reads as that one AVP, and its data as none. */
  lemma DisguisedParses()
    ensures ParseAll(DISGUISED) == Ok([INNER]) && Opened(INNER) == INNER
  {
    InnerHeader();
    WireIs(INNER, SUFFIX);
    assert Zeros(0) == [];
    assert Wire(INNER) == DISGUISED;
    assert WireAll([INNER]) == Wire(INNER) + WireAll([]);
    WireAllLength([INNER]);
    ParseAllOfWire([INNER]);
    assert CarriedAll([INNER]) == [INNER];
    SuffixDoesNotParse();
  }

  lemma SuffixDoesNotParse()
    ensures ParseAll(SUFFIX).Err?
  {
    var len := SUFFIX[5..8];
    assert len == [101, 120, 97];
    assert len[..2] == [101, 120] && [101, 120][..1] == [101] && [101][..0] == [];
    assert U([101]) == 101;
    assert U([101, 120]) == 101 * 256 + 120;
    assert U(len) > 16;
    assert ParseAvp(SUFFIX).Err?;
  }

  lemma DisguisedIsNormal()
    ensures NormalForm(DISGUISED) && HasSuffix(DISGUISED, SUFFIX)
  {
    assert TrimLeft(DISGUISED) == DISGUISED && TrimRight(DISGUISED) == DISGUISED && TrimDot(DISGUISED) == DISGUISED;
    assert Lower(DISGUISED) == DISGUISED;
  }

  lemma ScreenSingle(a: Avp, deny: seq<Selector>)
    ensures Screen([a], deny) == (ScreenOne(a, deny).0, [ScreenOne(a, deny).1])
  {
    hide ScreenOne;
    var x := ScreenOne(a, deny).1;
    assert [a][1..] == [] && Screen([], deny) == (None, []) && [x] + [] == [x];
  }

  lemma ScreensTo(host: Avp, deny: seq<Selector>)
    requires Opened(host) == host.(children := [INNER]) && Opened(INNER) == INNER
    requires !Denied(host, deny) && !Denied(INNER, deny)
    ensures Screen([host], deny) == (None, [host.(children := [INNER])])
  {
    hide Opened;
    OpenedShrinks(host);
    ScreenSingle(INNER, deny);
    ScreenSingle(host, deny);
  }

  /** A list of one Origin-Host is rewritten in place. */
  lemma HiddenSingle(p: Policy, inside: Inside, request: bool, a: Avp, mask: Text)
    requires Masked(p, inside, a) && !Scrubbed(p, a)
    ensures var out := Hidden(p, inside, request, [a], [mask]); out != [] && out[0] == a.(data := mask)
    ensures AnyMasked(p, inside, [a])
  {
    hide MustMask;
    assert [a][0] == a && AnyMasked(p, inside, [a]);
    assert [a][..0] == [] && [mask][..0] == [];
    assert Sanitised(p, inside, [a], [mask]) == [a.(data := mask)];
    assert FindAvp([a.(data := mask)], ORIGIN_REALM) == None;
  }

  /**
   * A request from that host, screened for AVPs denied, none of them these two, and then masked: the
   * screening finds nothing, the mask goes into the data field, and the partner still reads the host.
   */
  lemma DisguisedHostEscapes(p: Policy, deny: seq<Selector>, mask: Text)
    requires deny != [] && Normalize(p.edge) != DISGUISED && Selector(ORIGIN_HOST, 0) !in deny
             && Selector(INNER.code, 0) !in deny
    requires Selector(ORIGIN_HOST, 0) !in p.scrub
    ensures var inside := (t: Text) => HasSuffix(t, SUFFIX);
            var host := Avp(ORIGIN_HOST, FLAG_MANDATORY, 0, DISGUISED, []);
            var (found, screened) := Screen([host], deny);
            && found == None && AnyMasked(p, inside, screened)
            && host in CarriedAll(Hidden(p, inside, true, screened, [mask])) && Leaks(p, inside, host)
  {
    DisguisedParses();
    DisguisedIsNormal();
    hide ParseAll, Normalize, Lower, Screen, Hidden;
    var inside := (t: Text) => HasSuffix(t, SUFFIX);
    var host := Avp(ORIGIN_HOST, FLAG_MANDATORY, 0, DISGUISED, []);
    var grouped := host.(children := [INNER]);
    ScreensTo(host, deny);
    HiddenSingle(p, inside, true, grouped, mask);
    OpenedCoherent(host);
    CoherentBody(grouped);
    assert Body(grouped.(data := mask)) == Body(grouped);
    assert CarriedAll(Hidden(p, inside, true, [grouped], [mask]))[0] == host;
  }
}
