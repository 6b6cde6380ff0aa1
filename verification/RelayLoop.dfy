/**
 * The retry loop of RouteIn, run by one goroutine: choose a next hop, mint an ID, store the
 * transaction, send; on refusal undo and exclude the hop. `Relay` covers the interleavings.
 */
module RelayLoop {
  import opened Bytes
  import opened Sums
  import Relay

  type Key = Relay.Key
  type Txn = Relay.Txn

  /** What the peer look-up knows about a next hop: nothing, something that cannot send, or a peer
      and the identity its answers arrive under. */
  datatype Found = Absent | Mute | Peer(identity: Text)

  /** `refused` tells the error text of an overloaded hop from that of a missing route. */
  datatype Outcome = Relayed(key: Key, hop: Text) | ErrorAnswer(hbh: u32, refused: bool)

  class Message {
    var hbh: u32

    constructor (hbh: u32)
      ensures this.hbh == hbh
    {
      this.hbh := hbh;
    }
  }

  function Count(counters: map<Text, nat>, peer: Text): nat { if peer in counters then counters[peer] else 0 }

  /** At most `n` IDs were minted in between, and whether any was. */
  ghost predicate Minted(before: map<Text, nat>, after: map<Text, nat>, n: nat) {
    forall peer :: Count(before, peer) <= Count(after, peer) <= Count(before, peer) + n
  }

  ghost predicate AnyMinted(before: map<Text, nat>, after: map<Text, nat>) {
    exists peer :: Count(before, peer) < Count(after, peer)
  }

  lemma MintOne(before: map<Text, nat>, counters: map<Text, nat>, peer: Text, n: nat)
    requires Minted(before, counters, n)
    ensures Minted(before, counters[peer := Count(counters, peer) + 1], n + 1)
    ensures AnyMinted(before, counters[peer := Count(counters, peer) + 1])
  {
    assert Count(before, peer) < Count(counters[peer := Count(counters, peer) + 1], peer);
  }

  /** Every stored key was minted by its peer's counter. */
  ghost predicate Issued(txns: map<Key, Txn>, counters: map<Text, nat>) {
    forall k :: k in txns ==> 1 <= k.hbh <= Count(counters, k.peer)
  }

  class Router {
    var txns: map<Key, Txn>
    var counters: map<Text, nat>
    ghost var accepted: seq<Key>          // sends a peer took, under the ID sent

    ghost predicate Valid()
      reads this
    {
      Issued(txns, counters)
    }

    constructor ()
      ensures Valid() && txns == map[] && counters == map[] && accepted == []
    {
      txns, counters, accepted := map[], map[], [];
    }

    method NextHopByHopID(peer: Text) returns (hbh: u32)
      requires Count(counters, peer) + 1 < Relay.ID_SPACE
      modifies this`counters
      ensures hbh == Count(old(counters), peer) + 1 && counters == old(counters)[peer := hbh]
    {
      counters := counters[peer := Count(counters, peer) + 1];
      hbh := counters[peer];
    }

    /** One try: mint, store, send, and undo all but the minting if the peer refuses. */
    method TryPeer(origin: Option<Text>, msg: Message, now: int, nextHop: Text, identity: Text, take: bool)
        returns (key: Key)
      requires Valid() && Count(counters, identity) + 1 < Relay.ID_SPACE
      modifies this, msg
      ensures Valid() && counters == old(counters)[identity := Count(old(counters), identity) + 1]
      ensures key.peer == identity && key !in old(txns)
      ensures take ==>
        && accepted == old(accepted) + [key] && msg.hbh == key.hbh
        && txns == if origin.Some? then old(txns)[key := Relay.Txn(origin.value, old(msg.hbh), nextHop, now)]
           else old(txns)
      ensures !take ==> accepted == old(accepted) && msg.hbh == old(msg.hbh) && txns == old(txns)
    {
      var originalHBHID := msg.hbh;
      var newHBHID := NextHopByHopID(identity);
      msg.hbh := newHBHID;
      key := Relay.Key(identity, newHBHID);
      if origin.Some? {
        txns := txns[key := Relay.Txn(origin.value, originalHBHID, nextHop, now)];
      }
      if take {
        accepted := accepted + [key];
      } else {
        txns := txns - {key};
        msg.hbh := originalHBHID;
      }
    }

    /**
     * `route` is the selection on each try, `find` the peer look-up and `take` whether a peer takes
     * the message on each try. Handlers stay within a finite set of next hops.
     */
    method RelayRequest(origin: Option<Text>, msg: Message, now: int, hops: set<Text>,
                        route: (nat, set<Text>) -> Option<Text>, find: Text -> Found, take: nat -> bool)
        returns (r: Outcome)
      requires Valid() && forall peer :: Count(counters, peer) + |hops| < Relay.ID_SPACE
      requires forall n, exclude :: route(n, exclude).Some? ==> route(n, exclude).value in hops - exclude
      modifies this, msg
      ensures Valid() && Minted(old(counters), counters, |hops|)
      ensures r.Relayed? ==>
        && r.key !in old(txns) && r.hop in hops && find(r.hop) == Peer(r.key.peer)
        && accepted == old(accepted) + [r.key] && msg.hbh == r.key.hbh
        && txns == if origin.Some? then old(txns)[r.key := Relay.Txn(origin.value, old(msg.hbh), r.hop, now)]
           else old(txns)
      ensures r.ErrorAnswer? ==>
        && txns == old(txns) && accepted == old(accepted) && msg.hbh == old(msg.hbh) == r.hbh
        && (r.refused <==> AnyMinted(old(counters), counters))
    {
      hide Minted, AnyMinted, Issued;
      ghost var before := counters;
      var exclude: set<Text> := {};
      var refused := false;
      var n := 0;
      NothingMinted(before);
      while true
        invariant exclude <= hops && n == |exclude| <= |hops|
        invariant Valid() && txns == old(txns) && accepted == old(accepted) && msg.hbh == old(msg.hbh)
        invariant Minted(before, counters, n) && (refused <==> AnyMinted(before, counters))
        decreases |hops - exclude|
      {
        FewMinted(before, counters, n, |hops|);
        var hop := route(n, exclude);
        if hop == None {
          return ErrorAnswer(msg.hbh, refused);
        }
        var nextHop := hop.value;
        Grow(exclude, nextHop, hops);
        var found := find(nextHop);
        if found.Peer? {
          RoomToMint(before, counters, found.identity, n, |hops|);
          MintOne(before, counters, found.identity, n);
          var key := TryPeer(origin, msg, now, nextHop, found.identity, take(n));
          FewMinted(before, counters, n + 1, |hops|);
          if take(n) {
            return Relayed(key, nextHop);
          }
          refused := true;
        } else {
          FewMinted(before, counters, n, n + 1);
        }
        exclude := exclude + {nextHop};
        n := n + 1;
      }
    }
  }

  lemma NothingMinted(counters: map<Text, nat>)
    ensures Minted(counters, counters, 0) && !AnyMinted(counters, counters)
  {
  }

  lemma FewMinted(before: map<Text, nat>, after: map<Text, nat>, n: nat, more: nat)
    ensures Minted(before, after, n) && n <= more ==> Minted(before, after, more)
  {
  }

  lemma RoomToMint(before: map<Text, nat>, after: map<Text, nat>, peer: Text, n: nat, most: nat)
    requires Minted(before, after, n) && n < most && Count(before, peer) + most < Relay.ID_SPACE
    ensures Count(after, peer) + 1 < Relay.ID_SPACE
  {
  }

  lemma Grow(s: set<Text>, x: Text, all: set<Text>)
    requires s <= all && x in all - s
    ensures s + {x} <= all && |s + {x}| == |s| + 1 <= |all|
    ensures |all - (s + {x})| < |all - s|
  {
    assert all - (s + {x}) == (all - s) - {x};
    SubsetCard(s + {x}, all);
  }
}
