/**
 * Relaying requests and matching their answers, as a transition system: any number of goroutines
 * relay requests through the retry loop of RouteIn, peers write what their writer refused from a
 * fallback queue, answers come back on any connection in any order, and failover and expiry remove
 * transactions at any moment. One shared access per step.
 */
module Relay {
  import opened Bytes

  type Wid = nat

  const ID_SPACE: nat := 0x1_0000_0000

  /** A hop-by-hop ID on the connection it was minted for. */
  datatype Key = Key(peer: Text, hbh: u32)

  /** A request to be sent on: an inbound one, or without an origin one a local application gives to Peer.Send. */
  datatype Request = Request(origin: Option<Text>, hbh: u32, e2e: u32)

  datatype Txn = Txn(origin: Text, hbh: u32, outbound: Text, created: int)

  /** Where a relaying goroutine stands. `hop` is the routing name that selected the peer. */
  datatype Pc =
    | Choosing                                  // top of the retry loop
    | Minted(key: Key, hop: Text, saved: u32)   // new ID in the message, transaction not stored
    | Stored(key: Key, hop: Text, saved: u32)   // transaction stored, Send not entered
    | Tracked(key: Key, hop: Text, saved: u32)  // tracked as pending by the peer, not queued
    | Refused(key: Key, hop: Text, saved: u32)  // Send failed, transaction still stored
    | Relayed(key: Key)
    | Failed                                    // error answer sent

  /** `hbh` is the message's own field, which the loop overwrites and restores. */
  datatype Worker = Worker(req: Request, hbh: u32, pc: Pc)

  /** Auxiliary: what an ID was minted for. */
  datatype Owner = Relayer(w: Wid) | Own(e2e: u32)

  /** An answer sent back: which delivered answer, to whom and under which ID. */
  datatype Forward = Forward(i: nat, key: Key, to: Text, hbh: u32)

  /** What Send does with a tracked message: the writer takes it, or the fallback queue, or it fails. */
  datatype Taken = ByWriter | ByFallback | Turned

  datatype State = State(
    counters: map<Text, nat>,                   // IDs minted so far, by peer
    txns: map<Key, Txn>,
    workers: map<Wid, Worker>,
    pending: map<Key, u32>,                     // requests the peers await answers for, with their end-to-end ID
    outbox: map<Key, u32>,                      // relayed requests in the fallback queues, with their end-to-end ID
    delivered: seq<Key>,                        // answers passed up to the router, by the key they arrived under
    routed: set<nat>,                           // which of those the router has looked up
    forwarded: seq<Forward>,
    e2es: seq<u32>,                             // auxiliary: the end-to-end IDs of the answers passed up
    minted: map<Key, Owner>,                    // auxiliary: every ID ever minted
    tracked: set<Key>,                          // auxiliary: every request ever tracked
    sent: map<Key, Wid>,                        // auxiliary: relayed requests handed to a peer's queues
    stored: set<Key>,                           // auxiliary: every key ever stored
    written: set<Key>,                          // auxiliary: requests written from a fallback queue
    early: set<Key>)                            // auxiliary: those with an answer accepted before that

  function Count(s: State, peer: Text): nat { if peer in s.counters then s.counters[peer] else 0 }

  function Init(): State { State(map[], map[], map[], map[], map[], [], {}, [], [], map[], {}, map[], {}, {}, {}) }

  // ---------------------------------------------------------------- steps

  datatype Action =
    | Begin(w: Wid, req: Request)
    | Mint(w: Wid, peer: Text, hop: Text)       // NextHopByHopID of the chosen peer
    | Store(w: Wid, now: int)
    | Track(w: Wid, open: bool)                 // Send: the state check and trackPending
    | Queue(w: Wid, how: Taken)                 // Send: the writer, the fallback queue or neither takes it
    | Write(key: Key, newE2e: u32)              // the fallback write, which tracks the request again
    | Undo(w: Wid)                              // Delete and restore after a failed Send
    | GiveUp(w: Wid)                            // no route left: the error answer
    | OwnRequest(peer: Text, e2e: u32)          // the peer's own protocol request, sent at once
    | Answer(key: Key, e2e: u32, retransmit: bool)
    | Correlate(i: nat)                         // LoadAndDelete for the i-th delivered answer
    | Failover(key: Key, identity: Text)        // one entry of FailoverPeer's walk
    | Expire(key: Key, cutoff: int)             // one entry of sweepExpired's walk
    | ClearPending(peer: Text)

  predicate At(s: State, w: Wid) { w in s.workers }

  /** Fewer than 2^32 IDs are minted for each peer. */
  predicate Enabled(s: State, a: Action) {
    match a
    case Begin(w, req) => w !in s.workers
    case Mint(w, peer, hop) => At(s, w) && s.workers[w].pc.Choosing? && Count(s, peer) + 1 < ID_SPACE
    case Store(w, now) => At(s, w) && s.workers[w].pc.Minted?
    case Track(w, open) => At(s, w) && s.workers[w].pc.Stored?
    case Queue(w, how) => At(s, w) && s.workers[w].pc.Tracked?
    case Write(key, newE2e) => key in s.outbox
    case Undo(w) => At(s, w) && s.workers[w].pc.Refused?
    case GiveUp(w) => At(s, w) && s.workers[w].pc.Choosing?
    case OwnRequest(peer, e2e) => Count(s, peer) + 1 < ID_SPACE
    case Answer(key, e2e, retransmit) => true
    case Correlate(i) => i < |s.delivered| && i !in s.routed
    case Failover(key, identity) => true
    case Expire(key, cutoff) => true
    case ClearPending(peer) => true
  }

  function Do(s: State, a: Action): State
    requires Enabled(s, a)
  {
    match a
    case Begin(w, req) => DoBegin(s, w, req)
    case Mint(w, peer, hop) => DoMint(s, w, peer, hop)
    case Store(w, now) => DoStore(s, w, now)
    case Track(w, open) => DoTrack(s, w, open)
    case Queue(w, how) => DoQueue(s, w, how)
    case Write(key, newE2e) => DoWrite(s, key, newE2e)
    case Undo(w) => DoUndo(s, w)
    case GiveUp(w) => DoGiveUp(s, w)
    case OwnRequest(peer, e2e) => DoOwnRequest(s, peer, e2e)
    case Answer(key, e2e, retransmit) => DoAnswer(s, key, e2e, retransmit)
    case Correlate(i) => DoCorrelate(s, i)
    case Failover(key, identity) =>
      if key in s.txns && (s.txns[key].origin == identity || s.txns[key].outbound == identity) then Remove(s, key)
        else s
    case Expire(key, cutoff) => if key in s.txns && s.txns[key].created < cutoff then Remove(s, key) else s
    case ClearPending(peer) => DoClearPending(s, peer)
  }

  function DoBegin(s: State, w: Wid, req: Request): State {
    s.(workers := s.workers[w := Worker(req, req.hbh, Choosing)])
  }

  function DoGiveUp(s: State, w: Wid): State
    requires At(s, w)
  {
    s.(workers := s.workers[w := s.workers[w].(pc := Failed)])
  }

  function DoOwnRequest(s: State, peer: Text, e2e: u32): State
    requires Count(s, peer) + 1 < ID_SPACE
  {
    var key := Key(peer, Count(s, peer) + 1);
    s.(counters := s.counters[peer := Count(s, peer) + 1], minted := s.minted[key := Own(e2e)],
       pending := s.pending[key := e2e], tracked := s.tracked + {key})
  }

  function Remove(s: State, key: Key): State { s.(txns := s.txns - {key}) }

  function DoClearPending(s: State, peer: Text): State {
    s.(pending := map k | k in s.pending && k.peer != peer :: s.pending[k])
  }

  function DoMint(s: State, w: Wid, peer: Text, hop: Text): State
    requires At(s, w) && s.workers[w].pc.Choosing? && Count(s, peer) + 1 < ID_SPACE
  {
    var (key, x) := (Key(peer, Count(s, peer) + 1), s.workers[w]);
    s.(workers := s.workers[w := Worker(x.req, key.hbh, Minted(key, hop, x.hbh))],
       counters := s.counters[peer := Count(s, peer) + 1], minted := s.minted[key := Relayer(w)])
  }

  function DoStore(s: State, w: Wid, now: int): State
    requires At(s, w) && s.workers[w].pc.Minted?
  {
    var (x, key) := (s.workers[w], s.workers[w].pc.key);
    s.(workers := s.workers[w := Worker(x.req, x.hbh, Stored(key, x.pc.hop, x.pc.saved))],
       txns := if x.req.origin == None then s.txns
         else s.txns[key := Txn(x.req.origin.value, x.pc.saved, x.pc.hop, now)],
       stored := if x.req.origin == None then s.stored else s.stored + {key})
  }

  function DoTrack(s: State, w: Wid, open: bool): State
    requires At(s, w) && s.workers[w].pc.Stored?
  {
    var (x, key) := (s.workers[w], s.workers[w].pc.key);
    if open then
      s.(workers := s.workers[w := Worker(x.req, x.hbh, Tracked(key, x.pc.hop, x.pc.saved))],
         pending := s.pending[key := x.req.e2e], tracked := s.tracked + {key})
    else s.(workers := s.workers[w := Worker(x.req, x.hbh, Refused(key, x.pc.hop, x.pc.saved))])
  }

  function DoQueue(s: State, w: Wid, how: Taken): State
    requires At(s, w) && s.workers[w].pc.Tracked?
  {
    var (x, key) := (s.workers[w], s.workers[w].pc.key);
    if how == Turned then s.(workers := s.workers[w := Worker(x.req, x.hbh, Refused(key, x.pc.hop, x.pc.saved))])
    else
      s.(workers := s.workers[w := Worker(x.req, x.hbh, Relayed(key))], sent := s.sent[key := w],
         outbox := if how == ByFallback then s.outbox[key := x.req.e2e] else s.outbox)
  }

  /** sendMessageOnConn for a message of the fallback queue: a missing end-to-end ID is filled in, and the
      request is tracked, for the second time. */
  function DoWrite(s: State, key: Key, newE2e: u32): State
    requires key in s.outbox
  {
    s.(outbox := s.outbox - {key}, pending := s.pending[key := if s.outbox[key] == 0 then newE2e else s.outbox[key]],
       written := s.written + {key}, early := if key in s.delivered then s.early + {key} else s.early)
  }

  function DoUndo(s: State, w: Wid): State
    requires At(s, w) && s.workers[w].pc.Refused?
  {
    var x := s.workers[w];
    s.(workers := s.workers[w := Worker(x.req, x.pc.saved, Choosing)], txns := s.txns - {x.pc.key})
  }

  /** processInboundMessage: an answer must match a pending request by both IDs and not be a retransmission. */
  function DoAnswer(s: State, key: Key, e2e: u32, retransmit: bool): State {
    var awaited := !retransmit && key in s.pending;
    var accepted := awaited && (s.pending[key] == 0 || s.pending[key] == e2e);
    s.(pending := if awaited then s.pending - {key} else s.pending,
       delivered := if accepted then s.delivered + [key] else s.delivered,
       e2es := if accepted then s.e2es + [e2e] else s.e2es)
  }

  /** The answer takes its transaction and goes back under the original ID; without one it is not relayed. */
  function DoCorrelate(s: State, i: nat): State
    requires i < |s.delivered| && i !in s.routed
  {
    var (key, next) := (s.delivered[i], s.(routed := s.routed + {i}));
    if key in s.txns then
      next.(txns := s.txns - {key}, forwarded := s.forwarded + [Forward(i, key, s.txns[key].origin, s.txns[key].hbh)])
    else next
  }

  ghost predicate Run(from: State, actions: seq<Action>, to: State)
    decreases |actions|
  {
    if actions == [] then to == from
    else Enabled(from, actions[0]) && Run(Do(from, actions[0]), actions[1..], to)
  }

  ghost predicate Reachable(s: State) { exists actions :: Run(Init(), actions, s) }

  // ---------------------------------------------------------------- what every step keeps

  /** IDs are minted in order, so the next one is new. */
  ghost predicate MintedInOrder(s: State) {
    forall k :: k in s.minted ==> 1 <= k.hbh <= Count(s, k.peer) < ID_SPACE
  }

  /** The goroutine is at work on this key. */
  predicate Holds(x: Worker, k: Key) {
    match x.pc
    case Minted(key, _, _) => key == k
    case Stored(key, _, _) => key == k
    case Tracked(key, _, _) => key == k
    case Refused(key, _, _) => key == k
    case Relayed(key) => key == k
    case _ => false
  }

  /** The message carries the inbound ID, or the goroutine remembers it. */
  ghost predicate WorkerOk(s: State, w: Wid)
    requires w in s.workers
  {
    var x := s.workers[w];
    match x.pc
    case Choosing => x.hbh == x.req.hbh
    case Failed => x.hbh == x.req.hbh
    case Minted(key, _, saved) => saved == x.req.hbh && key in s.minted && s.minted[key] == Relayer(w)
      && key !in s.tracked && key !in s.stored && key !in s.sent
    case Stored(key, _, saved) => saved == x.req.hbh && key in s.minted && s.minted[key] == Relayer(w)
      && key !in s.tracked && key !in s.sent
    case Tracked(key, _, saved) => saved == x.req.hbh && key in s.minted && s.minted[key] == Relayer(w)
      && key in s.tracked && key !in s.sent
    case Refused(key, _, saved) => saved == x.req.hbh && key in s.minted && s.minted[key] == Relayer(w)
      && key !in s.sent
    case Relayed(key) => key in s.minted && s.minted[key] == Relayer(w) && key in s.sent
  }

  ghost predicate WorkersOk(s: State) { forall w :: w in s.workers ==> WorkerOk(s, w) }

  /** A key belongs to a relaying goroutine and these are the inbound names of its request. */
  ghost predicate MintedFor(s: State, k: Key, origin: Text, hbh: u32) {
    && k in s.minted && s.minted[k].Relayer? && s.minted[k].w in s.workers
    && s.workers[s.minted[k].w].req.origin == Some(origin) && s.workers[s.minted[k].w].req.hbh == hbh
  }

  /** Each transaction belongs to the request now being, or already, sent under its key. */
  ghost predicate TxnOk(s: State, k: Key)
    requires k in s.txns
  {
    MintedFor(s, k, s.txns[k].origin, s.txns[k].hbh) && Holds(s.workers[s.minted[k].w], k)
  }

  ghost predicate TxnsOk(s: State) { forall k :: k in s.txns ==> TxnOk(s, k) }

  ghost predicate SentBy(s: State, k: Key, w: Wid) {
    k in s.minted && s.minted[k] == Relayer(w) && w in s.workers && s.workers[w].pc == Relayed(k)
  }

  /** What is tracked, sent, waiting and written goes together. */
  ghost predicate TrackingOk(s: State) {
    && (forall k :: k in s.pending ==> k in s.tracked)
    && (forall k :: k in s.tracked ==> k in s.minted)
    && (forall k :: k in s.stored ==> k in s.minted)
    && (forall k :: k in s.sent ==> k in s.tracked && SentBy(s, k, s.sent[k]))
    && (forall k :: k in s.outbox ==> k in s.sent && k !in s.written)
    && (forall k :: k in s.written ==> k in s.sent)
    && (forall k :: k in s.early ==> k in s.written)
  }

  /** How many answers were passed up under a key. */
  function Times(delivered: seq<Key>, k: Key): nat {
    if delivered == [] then 0
    else Times(delivered[..|delivered| - 1], k) + if delivered[|delivered| - 1] == k then 1 else 0
  }

  /** An awaited request has had no answer, or the one before it was written; any has had at most one more. */
  ghost predicate DeliveryOk(s: State, k: Key) {
    var before := if k in s.early then 1 else 0;
    && (if k in s.pending then Times(s.delivered, k) == before else before <= Times(s.delivered, k) <= before + 1)
    && (Times(s.delivered, k) > 0 ==> k in s.tracked)
  }

  ghost predicate DeliveriesOk(s: State) { forall k :: DeliveryOk(s, k) }

  ghost predicate Answered(s: State, i: nat, k: Key) { i < |s.delivered| && i in s.routed && s.delivered[i] == k }

  /** A forwarded answer took the one transaction its key ever had. */
  ghost predicate ForwardOk(s: State, f: Forward) {
    MintedFor(s, f.key, f.to, f.hbh) && Answered(s, f.i, f.key) && f.key in s.stored && f.key !in s.txns
  }

  ghost predicate ForwardsOk(s: State) {
    && (forall k :: k in s.txns ==> k in s.stored)
    && (forall f :: f in s.forwarded ==> ForwardOk(s, f))
    && (forall i, j :: 0 <= i < j < |s.forwarded| ==> s.forwarded[i].key != s.forwarded[j].key)
  }

  ghost predicate InvWork(s: State) { MintedInOrder(s) && WorkersOk(s) && TxnsOk(s) }

  ghost predicate Inv(s: State) { InvWork(s) && TrackingOk(s) && DeliveriesOk(s) && ForwardsOk(s) }

  lemma InitEstablishes()
    ensures Inv(Init())
  {
  }

  lemma MintIsNew(s: State, peer: Text)
    requires Inv(s) && Count(s, peer) + 1 < ID_SPACE
    ensures var k := Key(peer, Count(s, peer) + 1);
            k !in s.minted && k !in s.tracked && k !in s.stored && k !in s.txns && k !in s.sent && k !in s.pending
  {
    hide DeliveriesOk;
  }

  lemma {:induction false} TimesOf(delivered: seq<Key>, k: Key)
    ensures Times(delivered, k) > 0 <==> k in delivered
  {
    if delivered != [] {
      TimesOf(delivered[..|delivered| - 1], k);
      assert delivered == delivered[..|delivered| - 1] + [delivered[|delivered| - 1]];
    }
  }

  lemma TimesNext(delivered: seq<Key>, d: Key, k: Key)
    ensures Times(delivered + [d], k) == Times(delivered, k) + if d == k then 1 else 0
  {
    assert (delivered + [d])[..|delivered|] == delivered;
  }

  /** A step that leaves the answers, what is awaited and what was tracked keeps the bounds on answers. */
  lemma SameAnswers(s: State, s': State)
    requires DeliveriesOk(s) && s'.delivered == s.delivered && s'.pending == s.pending && s'.early == s.early
             && s'.tracked == s.tracked
    ensures DeliveriesOk(s')
  {
    forall k
      ensures DeliveryOk(s', k)
    {
      assert DeliveryOk(s, k);
    }
  }

  /** A step of no goroutine that at most removes transactions keeps their work in order. */
  lemma WorkStays(s: State, s': State)
    requires InvWork(s) && s'.counters == s.counters && s'.minted == s.minted && s'.workers == s.workers
    requires s'.tracked == s.tracked && s'.stored == s.stored && s'.sent == s.sent && s'.txns.Items <= s.txns.Items
    ensures InvWork(s')
  {
    forall w | w in s'.workers
      ensures WorkerOk(s', w)
    {
      assert WorkerOk(s, w);
    }
    forall k | k in s'.txns
      ensures TxnOk(s', k)
    {
      assert (k, s'.txns[k]) in s'.txns.Items;
      assert TxnOk(s, k);
    }
  }

  /** Nor does it undo what was forwarded. */
  lemma ForwardsStay(s: State, s': State)
    requires ForwardsOk(s) && s'.minted == s.minted && s'.workers == s.workers && s'.stored == s.stored
    requires s'.forwarded == s.forwarded && s'.routed == s.routed && s.delivered <= s'.delivered
             && s'.txns.Keys <= s.txns.Keys
    ensures ForwardsOk(s')
  {
    assert forall k :: k in s'.txns ==> k in s'.txns.Keys && k in s.txns.Keys;
    forall f | f in s'.forwarded
      ensures ForwardOk(s', f)
    {
      assert ForwardOk(s, f);
    }
  }

  lemma BooksStay(s: State, s': State)
    requires TrackingOk(s) && s'.pending == s.pending && s'.tracked == s.tracked && s'.minted == s.minted
             && s'.workers == s.workers
    requires s'.stored == s.stored && s'.sent == s.sent && s'.outbox == s.outbox && s'.written == s.written
             && s'.early == s.early
    ensures TrackingOk(s')
  {
  }

  lemma BeginKeepsWork(s: State, w: Wid, req: Request)
    requires Inv(s) && w !in s.workers
    ensures InvWork(DoBegin(s, w, req))
  {
    hide DeliveriesOk, ForwardsOk;
  }

  lemma BeginKeepsBooks(s: State, w: Wid, req: Request)
    requires Inv(s) && w !in s.workers
    ensures TrackingOk(DoBegin(s, w, req))
  {
    hide TxnsOk, DeliveriesOk, ForwardsOk, MintedInOrder;
  }

  lemma BeginKeepsForwards(s: State, w: Wid, req: Request)
    requires Inv(s) && w !in s.workers
    ensures ForwardsOk(DoBegin(s, w, req))
  {
    hide DeliveriesOk, MintedInOrder;
  }

  lemma BeginPreserves(s: State, w: Wid, req: Request)
    requires Inv(s) && w !in s.workers
    ensures Inv(DoBegin(s, w, req))
  {
    SameAnswers(s, DoBegin(s, w, req));
    BeginKeepsWork(s, w, req);
    BeginKeepsBooks(s, w, req);
    BeginKeepsForwards(s, w, req);
    hide InvWork, TrackingOk, DeliveriesOk, ForwardsOk, DoBegin;
  }

  lemma MintKeepsWorker(s: State, w: Wid, peer: Text, hop: Text, u: Wid)
    requires At(s, w) && s.workers[w].pc.Choosing? && Count(s, peer) + 1 < ID_SPACE
    requires u in s.workers && WorkerOk(s, u) && WorkerOk(s, w)
    requires Key(peer, Count(s, peer) + 1) !in s.minted && Key(peer, Count(s, peer) + 1) !in s.tracked
             && Key(peer, Count(s, peer) + 1) !in s.stored && Key(peer, Count(s, peer) + 1) !in s.sent
    ensures WorkerOk(DoMint(s, w, peer, hop), u)
  {
  }

  lemma MintKeepsTxn(s: State, w: Wid, peer: Text, hop: Text, k: Key)
    requires At(s, w) && s.workers[w].pc.Choosing? && Count(s, peer) + 1 < ID_SPACE
    requires k in s.txns ==> TxnOk(s, k)
    requires WorkerOk(s, w)
    requires Key(peer, Count(s, peer) + 1) !in s.minted && k in s.txns
    ensures TxnOk(DoMint(s, w, peer, hop), k)
  {
  }

  lemma MintKeepsOrder(s: State, w: Wid, peer: Text, hop: Text)
    requires Inv(s) && At(s, w) && s.workers[w].pc.Choosing? && Count(s, peer) + 1 < ID_SPACE
    ensures MintedInOrder(DoMint(s, w, peer, hop))
  {
    MintIsNew(s, peer);
    hide WorkersOk, TxnsOk, TrackingOk, DeliveriesOk, ForwardsOk;
  }

  lemma MintKeepsWork(s: State, w: Wid, peer: Text, hop: Text)
    requires Inv(s) && At(s, w) && s.workers[w].pc.Choosing? && Count(s, peer) + 1 < ID_SPACE
    ensures InvWork(DoMint(s, w, peer, hop))
  {
    MintKeepsOrder(s, w, peer, hop);
    MintIsNew(s, peer);
    assert WorkerOk(s, w);
    hide MintedInOrder, WorkerOk, TxnOk, TrackingOk, DeliveriesOk, ForwardsOk;
    forall u | u in DoMint(s, w, peer, hop).workers
      ensures WorkerOk(DoMint(s, w, peer, hop), u)
    {
      MintKeepsWorker(s, w, peer, hop, u);
    }
    forall k | k in DoMint(s, w, peer, hop).txns
      ensures TxnOk(DoMint(s, w, peer, hop), k)
    {
      MintKeepsTxn(s, w, peer, hop, k);
    }
  }

  lemma MintKeepsBooks(s: State, w: Wid, peer: Text, hop: Text)
    requires Inv(s) && At(s, w) && s.workers[w].pc.Choosing? && Count(s, peer) + 1 < ID_SPACE
    ensures TrackingOk(DoMint(s, w, peer, hop))
  {
    MintIsNew(s, peer);
    hide TxnsOk, DeliveriesOk, ForwardsOk;
  }

  lemma MintKeepsForwards(s: State, w: Wid, peer: Text, hop: Text)
    requires Inv(s) && At(s, w) && s.workers[w].pc.Choosing? && Count(s, peer) + 1 < ID_SPACE
    ensures ForwardsOk(DoMint(s, w, peer, hop))
  {
    MintIsNew(s, peer);
    hide DeliveriesOk, MintedInOrder;
  }

  lemma MintPreserves(s: State, w: Wid, peer: Text, hop: Text)
    requires Inv(s) && At(s, w) && s.workers[w].pc.Choosing? && Count(s, peer) + 1 < ID_SPACE
    ensures Inv(DoMint(s, w, peer, hop))
  {
    SameAnswers(s, DoMint(s, w, peer, hop));
    MintKeepsWork(s, w, peer, hop);
    MintKeepsBooks(s, w, peer, hop);
    MintKeepsForwards(s, w, peer, hop);
    hide InvWork, TrackingOk, DeliveriesOk, ForwardsOk, DoMint;
  }

  lemma StoreKeepsOther(s: State, w: Wid, now: int, u: Wid)
    requires At(s, w) && s.workers[w].pc.Minted? && u in s.workers && u != w && WorkerOk(s, u)
    requires s.workers[w].pc.key in s.minted && s.minted[s.workers[w].pc.key] == Relayer(w)
    ensures WorkerOk(DoStore(s, w, now), u)
  {
    if s.workers[u].pc.Minted? {
      assert s.minted[s.workers[u].pc.key] != Relayer(w);
    }
  }

  lemma StoreKeepsWorker(s: State, w: Wid, now: int, u: Wid)
    requires At(s, w) && s.workers[w].pc.Minted?
    requires u in s.workers && WorkerOk(s, u) && WorkerOk(s, w)
    ensures WorkerOk(DoStore(s, w, now), u)
  {
    if u != w {
      StoreKeepsOther(s, w, now, u);
      hide DoStore;
    }
  }

  lemma StoreKeepsOld(s: State, w: Wid, now: int, k: Key)
    requires At(s, w) && s.workers[w].pc.Minted? && k in s.txns && TxnOk(s, k) && k != s.workers[w].pc.key
    ensures k in DoStore(s, w, now).txns && TxnOk(DoStore(s, w, now), k)
  {
    var u := s.minted[k].w;
    assert u != w;
    assert DoStore(s, w, now).workers[u] == s.workers[u];
  }

  lemma StoreKeepsTxn(s: State, w: Wid, now: int, k: Key)
    requires At(s, w) && s.workers[w].pc.Minted?
    requires k in s.txns ==> TxnOk(s, k)
    requires s.workers[w].pc.saved == s.workers[w].req.hbh
    requires s.workers[w].pc.key in s.minted && s.minted[s.workers[w].pc.key] == Relayer(w)
    requires k in DoStore(s, w, now).txns
    ensures TxnOk(DoStore(s, w, now), k)
  {
    if k != s.workers[w].pc.key {
      assert k in s.txns;
      StoreKeepsOld(s, w, now, k);
      hide DoStore, TxnOk;
    }
  }

  lemma StoreKeepsOrder(s: State, w: Wid, now: int)
    requires Inv(s) && At(s, w) && s.workers[w].pc.Minted?
    ensures MintedInOrder(DoStore(s, w, now))
  {
    hide WorkersOk, TxnsOk, TrackingOk, DeliveriesOk, ForwardsOk;
  }

  lemma StoreKeepsWork(s: State, w: Wid, now: int)
    requires Inv(s) && At(s, w) && s.workers[w].pc.Minted?
    ensures InvWork(DoStore(s, w, now))
  {
    StoreKeepsOrder(s, w, now);
    var x := s.workers[w];
    assert WorkerOk(s, w) && x.pc.saved == x.req.hbh && x.pc.key in s.minted && s.minted[x.pc.key] == Relayer(w);
    hide MintedInOrder, WorkerOk, TxnOk, TrackingOk, DeliveriesOk, ForwardsOk;
    forall u | u in DoStore(s, w, now).workers
      ensures WorkerOk(DoStore(s, w, now), u)
    {
      StoreKeepsWorker(s, w, now, u);
    }
    forall k | k in DoStore(s, w, now).txns
      ensures TxnOk(DoStore(s, w, now), k)
    {
      StoreKeepsTxn(s, w, now, k);
    }
  }

  lemma StoreKeepsBooks(s: State, w: Wid, now: int)
    requires Inv(s) && At(s, w) && s.workers[w].pc.Minted?
    ensures TrackingOk(DoStore(s, w, now))
  {
    hide TxnsOk, DeliveriesOk, ForwardsOk, MintedInOrder;
  }

  lemma StoreKeepsForward(s: State, w: Wid, now: int, f: Forward)
    requires At(s, w) && s.workers[w].pc.Minted? && WorkerOk(s, w) && ForwardOk(s, f)
    ensures ForwardOk(DoStore(s, w, now), f)
  {
  }

  lemma StoreKeepsForwards(s: State, w: Wid, now: int)
    requires Inv(s) && At(s, w) && s.workers[w].pc.Minted?
    ensures ForwardsOk(DoStore(s, w, now))
  {
    assert WorkerOk(s, w);
    hide WorkersOk, WorkerOk, TxnsOk, TrackingOk, DeliveriesOk, MintedInOrder, ForwardOk;
    forall f | f in s.forwarded
      ensures ForwardOk(DoStore(s, w, now), f)
    {
      StoreKeepsForward(s, w, now, f);
    }
  }

  lemma StorePreserves(s: State, w: Wid, now: int)
    requires Inv(s) && At(s, w) && s.workers[w].pc.Minted?
    ensures Inv(DoStore(s, w, now))
  {
    SameAnswers(s, DoStore(s, w, now));
    StoreKeepsWork(s, w, now);
    StoreKeepsBooks(s, w, now);
    StoreKeepsForwards(s, w, now);
    hide InvWork, TrackingOk, DeliveriesOk, ForwardsOk, DoStore;
  }

  lemma TrackKeepsWorker(s: State, w: Wid, open: bool, u: Wid)
    requires At(s, w) && s.workers[w].pc.Stored?
    requires u in s.workers && WorkerOk(s, u) && WorkerOk(s, w)
    ensures WorkerOk(DoTrack(s, w, open), u)
  {
    if u != w && !s.workers[u].pc.Choosing? && !s.workers[u].pc.Failed? {
      assert s.minted[s.workers[u].pc.key] != s.minted[s.workers[w].pc.key];
    }
  }

  lemma TrackKeepsTxn(s: State, w: Wid, open: bool, k: Key)
    requires At(s, w) && s.workers[w].pc.Stored?
    requires k in s.txns ==> TxnOk(s, k)
    requires WorkerOk(s, w)
    requires k in DoTrack(s, w, open).txns
    ensures TxnOk(DoTrack(s, w, open), k)
  {
  }

  lemma TrackKeepsOrder(s: State, w: Wid, open: bool)
    requires Inv(s) && At(s, w) && s.workers[w].pc.Stored?
    ensures MintedInOrder(DoTrack(s, w, open))
  {
    hide WorkersOk, TxnsOk, TrackingOk, DeliveriesOk, ForwardsOk;
  }

  lemma TrackKeepsWork(s: State, w: Wid, open: bool)
    requires Inv(s) && At(s, w) && s.workers[w].pc.Stored?
    ensures InvWork(DoTrack(s, w, open))
  {
    TrackKeepsOrder(s, w, open);
    assert WorkerOk(s, w);
    hide MintedInOrder, WorkerOk, TxnOk, TrackingOk, DeliveriesOk, ForwardsOk;
    forall u | u in DoTrack(s, w, open).workers
      ensures WorkerOk(DoTrack(s, w, open), u)
    {
      TrackKeepsWorker(s, w, open, u);
    }
    forall k | k in DoTrack(s, w, open).txns
      ensures TxnOk(DoTrack(s, w, open), k)
    {
      TrackKeepsTxn(s, w, open, k);
    }
  }

  lemma TrackKeepsBooks(s: State, w: Wid, open: bool)
    requires Inv(s) && At(s, w) && s.workers[w].pc.Stored?
    ensures TrackingOk(DoTrack(s, w, open))
  {
    hide TxnsOk, DeliveriesOk, ForwardsOk, MintedInOrder;
  }

  lemma TrackKeepsAnswers(s: State, w: Wid, open: bool)
    requires Inv(s) && At(s, w) && s.workers[w].pc.Stored?
    ensures DeliveriesOk(DoTrack(s, w, open))
  {
    assert WorkerOk(s, w);
    hide Times, WorkersOk, TxnsOk, ForwardsOk, MintedInOrder;
    forall k
      ensures DeliveryOk(DoTrack(s, w, open), k)
    {
      assert DeliveryOk(s, k);
    }
  }

  lemma TrackKeepsForwards(s: State, w: Wid, open: bool)
    requires Inv(s) && At(s, w) && s.workers[w].pc.Stored?
    ensures ForwardsOk(DoTrack(s, w, open))
  {
    hide DeliveriesOk, MintedInOrder;
  }

  lemma TrackPreserves(s: State, w: Wid, open: bool)
    requires Inv(s) && At(s, w) && s.workers[w].pc.Stored?
    ensures Inv(DoTrack(s, w, open))
  {
    TrackKeepsAnswers(s, w, open);
    TrackKeepsWork(s, w, open);
    TrackKeepsBooks(s, w, open);
    TrackKeepsForwards(s, w, open);
    hide InvWork, TrackingOk, DeliveriesOk, ForwardsOk, DoTrack;
  }

  lemma QueueKeepsWorker(s: State, w: Wid, how: Taken, u: Wid)
    requires At(s, w) && s.workers[w].pc.Tracked?
    requires u in s.workers && WorkerOk(s, u) && WorkerOk(s, w)
    ensures WorkerOk(DoQueue(s, w, how), u)
  {
  }

  lemma QueueKeepsTxn(s: State, w: Wid, how: Taken, k: Key)
    requires At(s, w) && s.workers[w].pc.Tracked?
    requires k in s.txns ==> TxnOk(s, k)
    requires WorkerOk(s, w)
    requires k in DoQueue(s, w, how).txns
    ensures TxnOk(DoQueue(s, w, how), k)
  {
  }

  lemma QueueKeepsOrder(s: State, w: Wid, how: Taken)
    requires Inv(s) && At(s, w) && s.workers[w].pc.Tracked?
    ensures MintedInOrder(DoQueue(s, w, how))
  {
    hide WorkersOk, TxnsOk, TrackingOk, DeliveriesOk, ForwardsOk;
  }

  lemma QueueKeepsWork(s: State, w: Wid, how: Taken)
    requires Inv(s) && At(s, w) && s.workers[w].pc.Tracked?
    ensures InvWork(DoQueue(s, w, how))
  {
    QueueKeepsOrder(s, w, how);
    assert WorkerOk(s, w);
    hide MintedInOrder, WorkerOk, TxnOk, TrackingOk, DeliveriesOk, ForwardsOk;
    forall u | u in DoQueue(s, w, how).workers
      ensures WorkerOk(DoQueue(s, w, how), u)
    {
      QueueKeepsWorker(s, w, how, u);
    }
    forall k | k in DoQueue(s, w, how).txns
      ensures TxnOk(DoQueue(s, w, how), k)
    {
      QueueKeepsTxn(s, w, how, k);
    }
  }

  lemma QueueKeepsBooks(s: State, w: Wid, how: Taken)
    requires Inv(s) && At(s, w) && s.workers[w].pc.Tracked?
    ensures TrackingOk(DoQueue(s, w, how))
  {
    hide TxnsOk, DeliveriesOk, ForwardsOk, MintedInOrder;
  }

  lemma QueueKeepsForwards(s: State, w: Wid, how: Taken)
    requires Inv(s) && At(s, w) && s.workers[w].pc.Tracked?
    ensures ForwardsOk(DoQueue(s, w, how))
  {
    hide DeliveriesOk, MintedInOrder;
  }

  lemma QueuePreserves(s: State, w: Wid, how: Taken)
    requires Inv(s) && At(s, w) && s.workers[w].pc.Tracked?
    ensures Inv(DoQueue(s, w, how))
  {
    SameAnswers(s, DoQueue(s, w, how));
    QueueKeepsWork(s, w, how);
    QueueKeepsBooks(s, w, how);
    QueueKeepsForwards(s, w, how);
    hide InvWork, TrackingOk, DeliveriesOk, ForwardsOk, DoQueue;
  }

  lemma WriteKeepsBooks(s: State, key: Key, newE2e: u32)
    requires Inv(s) && key in s.outbox
    ensures TrackingOk(DoWrite(s, key, newE2e))
  {
    hide TxnsOk, DeliveriesOk, ForwardsOk, MintedInOrder;
  }

  lemma WriteKeepsAnswers(s: State, key: Key, newE2e: u32)
    requires Inv(s) && key in s.outbox
    ensures DeliveriesOk(DoWrite(s, key, newE2e))
  {
    hide Times, WorkersOk, TxnsOk, ForwardsOk, MintedInOrder;
    forall k
      ensures DeliveryOk(DoWrite(s, key, newE2e), k)
    {
      assert DeliveryOk(s, k);
      TimesOf(s.delivered, k);
      assert key in s.tracked && key !in s.early;
    }
  }

  lemma WritePreserves(s: State, key: Key, newE2e: u32)
    requires Inv(s) && key in s.outbox
    ensures Inv(DoWrite(s, key, newE2e))
  {
    WriteKeepsAnswers(s, key, newE2e);
    WorkStays(s, DoWrite(s, key, newE2e));
    WriteKeepsBooks(s, key, newE2e);
    ForwardsStay(s, DoWrite(s, key, newE2e));
    hide InvWork, TrackingOk, DeliveriesOk, ForwardsOk, DoWrite;
  }

  lemma UndoKeepsWorker(s: State, w: Wid, u: Wid)
    requires At(s, w) && s.workers[w].pc.Refused?
    requires u in s.workers && WorkerOk(s, u) && WorkerOk(s, w)
    ensures WorkerOk(DoUndo(s, w), u)
  {
  }

  lemma UndoKeepsTxn(s: State, w: Wid, k: Key)
    requires At(s, w) && s.workers[w].pc.Refused?
    requires k in s.txns ==> TxnOk(s, k)
    requires WorkerOk(s, w)
    requires k in DoUndo(s, w).txns
    ensures TxnOk(DoUndo(s, w), k)
  {
  }

  lemma UndoKeepsOrder(s: State, w: Wid)
    requires Inv(s) && At(s, w) && s.workers[w].pc.Refused?
    ensures MintedInOrder(DoUndo(s, w))
  {
    hide WorkersOk, TxnsOk, TrackingOk, DeliveriesOk, ForwardsOk;
  }

  lemma UndoKeepsWork(s: State, w: Wid)
    requires Inv(s) && At(s, w) && s.workers[w].pc.Refused?
    ensures InvWork(DoUndo(s, w))
  {
    UndoKeepsOrder(s, w);
    assert WorkerOk(s, w);
    hide MintedInOrder, WorkerOk, TxnOk, TrackingOk, DeliveriesOk, ForwardsOk;
    forall u | u in DoUndo(s, w).workers
      ensures WorkerOk(DoUndo(s, w), u)
    {
      UndoKeepsWorker(s, w, u);
    }
    forall k | k in DoUndo(s, w).txns
      ensures TxnOk(DoUndo(s, w), k)
    {
      UndoKeepsTxn(s, w, k);
    }
  }

  lemma UndoKeepsBooks(s: State, w: Wid)
    requires Inv(s) && At(s, w) && s.workers[w].pc.Refused?
    ensures TrackingOk(DoUndo(s, w))
  {
    hide TxnsOk, DeliveriesOk, ForwardsOk, MintedInOrder;
  }

  lemma UndoKeepsForwards(s: State, w: Wid)
    requires Inv(s) && At(s, w) && s.workers[w].pc.Refused?
    ensures ForwardsOk(DoUndo(s, w))
  {
    hide DeliveriesOk, MintedInOrder;
  }

  lemma UndoPreserves(s: State, w: Wid)
    requires Inv(s) && At(s, w) && s.workers[w].pc.Refused?
    ensures Inv(DoUndo(s, w))
  {
    SameAnswers(s, DoUndo(s, w));
    UndoKeepsWork(s, w);
    UndoKeepsBooks(s, w);
    UndoKeepsForwards(s, w);
    hide InvWork, TrackingOk, DeliveriesOk, ForwardsOk, DoUndo;
  }

  lemma GiveUpKeepsWork(s: State, w: Wid)
    requires Inv(s) && At(s, w) && s.workers[w].pc.Choosing?
    ensures InvWork(DoGiveUp(s, w))
  {
    hide DeliveriesOk, ForwardsOk;
  }

  lemma GiveUpKeepsBooks(s: State, w: Wid)
    requires Inv(s) && At(s, w) && s.workers[w].pc.Choosing?
    ensures TrackingOk(DoGiveUp(s, w))
  {
    hide TxnsOk, DeliveriesOk, ForwardsOk, MintedInOrder;
  }

  lemma GiveUpKeepsForwards(s: State, w: Wid)
    requires Inv(s) && At(s, w) && s.workers[w].pc.Choosing?
    ensures ForwardsOk(DoGiveUp(s, w))
  {
    hide DeliveriesOk, MintedInOrder;
  }

  lemma GiveUpPreserves(s: State, w: Wid)
    requires Inv(s) && At(s, w) && s.workers[w].pc.Choosing?
    ensures Inv(DoGiveUp(s, w))
  {
    SameAnswers(s, DoGiveUp(s, w));
    GiveUpKeepsWork(s, w);
    GiveUpKeepsBooks(s, w);
    GiveUpKeepsForwards(s, w);
    hide InvWork, TrackingOk, DeliveriesOk, ForwardsOk, DoGiveUp;
  }

  lemma OwnRequestKeepsWorker(s: State, peer: Text, e2e: u32, u: Wid)
    requires Count(s, peer) + 1 < ID_SPACE
    requires u in s.workers && WorkerOk(s, u)
    requires Key(peer, Count(s, peer) + 1) !in s.minted && Key(peer, Count(s, peer) + 1) !in s.tracked
             && Key(peer, Count(s, peer) + 1) !in s.stored && Key(peer, Count(s, peer) + 1) !in s.sent
    ensures WorkerOk(DoOwnRequest(s, peer, e2e), u)
  {
  }

  lemma OwnRequestKeepsTxn(s: State, peer: Text, e2e: u32, k: Key)
    requires Count(s, peer) + 1 < ID_SPACE
    requires k in s.txns ==> TxnOk(s, k)
    requires Key(peer, Count(s, peer) + 1) !in s.minted && k in s.txns
    ensures TxnOk(DoOwnRequest(s, peer, e2e), k)
  {
  }

  lemma OwnRequestKeepsOrder(s: State, peer: Text, e2e: u32)
    requires Inv(s) && Count(s, peer) + 1 < ID_SPACE
    ensures MintedInOrder(DoOwnRequest(s, peer, e2e))
  {
    MintIsNew(s, peer);
    hide WorkersOk, TxnsOk, TrackingOk, DeliveriesOk, ForwardsOk;
  }

  lemma OwnRequestKeepsWork(s: State, peer: Text, e2e: u32)
    requires Inv(s) && Count(s, peer) + 1 < ID_SPACE
    ensures InvWork(DoOwnRequest(s, peer, e2e))
  {
    OwnRequestKeepsOrder(s, peer, e2e);
    MintIsNew(s, peer);
    hide MintedInOrder, WorkerOk, TxnOk, TrackingOk, DeliveriesOk, ForwardsOk;
    forall u | u in DoOwnRequest(s, peer, e2e).workers
      ensures WorkerOk(DoOwnRequest(s, peer, e2e), u)
    {
      OwnRequestKeepsWorker(s, peer, e2e, u);
    }
    forall k | k in DoOwnRequest(s, peer, e2e).txns
      ensures TxnOk(DoOwnRequest(s, peer, e2e), k)
    {
      OwnRequestKeepsTxn(s, peer, e2e, k);
    }
  }

  lemma OwnRequestKeepsBooks(s: State, peer: Text, e2e: u32)
    requires Inv(s) && Count(s, peer) + 1 < ID_SPACE
    ensures TrackingOk(DoOwnRequest(s, peer, e2e))
  {
    MintIsNew(s, peer);
    hide TxnsOk, DeliveriesOk, ForwardsOk;
  }

  lemma OwnRequestKeepsAnswers(s: State, peer: Text, e2e: u32)
    requires Inv(s) && Count(s, peer) + 1 < ID_SPACE
    ensures DeliveriesOk(DoOwnRequest(s, peer, e2e))
  {
    MintIsNew(s, peer);
    hide Times, WorkersOk, TxnsOk, ForwardsOk, MintedInOrder;
    forall k
      ensures DeliveryOk(DoOwnRequest(s, peer, e2e), k)
    {
      assert DeliveryOk(s, k);
    }
  }

  lemma OwnRequestKeepsForwards(s: State, peer: Text, e2e: u32)
    requires Inv(s) && Count(s, peer) + 1 < ID_SPACE
    ensures ForwardsOk(DoOwnRequest(s, peer, e2e))
  {
    MintIsNew(s, peer);
    hide DeliveriesOk, MintedInOrder;
  }

  lemma OwnRequestPreserves(s: State, peer: Text, e2e: u32)
    requires Inv(s) && Count(s, peer) + 1 < ID_SPACE
    ensures Inv(DoOwnRequest(s, peer, e2e))
  {
    OwnRequestKeepsAnswers(s, peer, e2e);
    OwnRequestKeepsWork(s, peer, e2e);
    OwnRequestKeepsBooks(s, peer, e2e);
    OwnRequestKeepsForwards(s, peer, e2e);
    hide InvWork, TrackingOk, DeliveriesOk, ForwardsOk, DoOwnRequest;
  }

  lemma AnswerKeepsAnswers(s: State, key: Key, e2e: u32, retransmit: bool)
    requires Inv(s)
    ensures DeliveriesOk(DoAnswer(s, key, e2e, retransmit))
  {
    hide Times, WorkersOk, TxnsOk, ForwardsOk, MintedInOrder;
    forall k
      ensures DeliveryOk(DoAnswer(s, key, e2e, retransmit), k)
    {
      assert DeliveryOk(s, k);
      TimesNext(s.delivered, key, k);
    }
  }

  lemma AnswerTouches(s: State, key: Key, e2e: u32, retransmit: bool)
    ensures var s' := DoAnswer(s, key, e2e, retransmit);
            s' == s.(pending := s'.pending, delivered := s'.delivered, e2es := s'.e2es)
              && s'.pending.Keys <= s.pending.Keys
              && s.delivered <= s'.delivered
  {
  }

  lemma AnswerKeepsBooks(s: State, key: Key, e2e: u32, retransmit: bool)
    requires Inv(s)
    ensures TrackingOk(DoAnswer(s, key, e2e, retransmit))
  {
    AnswerTouches(s, key, e2e, retransmit);
    hide DoAnswer;
    assert forall k :: k in DoAnswer(s, key, e2e, retransmit).pending ==> k in s.pending.Keys;
    hide TxnsOk, DeliveriesOk, ForwardsOk, MintedInOrder;
  }

  lemma AnswerPreserves(s: State, key: Key, e2e: u32, retransmit: bool)
    requires Inv(s)
    ensures Inv(DoAnswer(s, key, e2e, retransmit))
  {
    hide InvWork, TrackingOk, DeliveriesOk, ForwardsOk, DoAnswer;
    AnswerTouches(s, key, e2e, retransmit);
    AnswerKeepsAnswers(s, key, e2e, retransmit);
    WorkStays(s, DoAnswer(s, key, e2e, retransmit));
    AnswerKeepsBooks(s, key, e2e, retransmit);
    ForwardsStay(s, DoAnswer(s, key, e2e, retransmit));
  }

  lemma CorrelateKeepsForward(s: State, i: nat, f: Forward)
    requires i < |s.delivered| && i !in s.routed && f in DoCorrelate(s, i).forwarded
    requires s.delivered[i] in s.txns ==> TxnOk(s, s.delivered[i]) && s.delivered[i] in s.stored
    requires f in s.forwarded ==> ForwardOk(s, f)
    ensures ForwardOk(DoCorrelate(s, i), f)
  {
  }

  lemma CorrelateNewKey(s: State, i: nat)
    requires i < |s.delivered| && i !in s.routed && ForwardsOk(s)
    ensures var next := DoCorrelate(s, i).forwarded;
            forall a, b :: 0 <= a < b < |next| ==> next[a].key != next[b].key
  {
    var next := DoCorrelate(s, i).forwarded;
    hide MintedFor;
    forall a, b | 0 <= a < b < |next|
      ensures next[a].key != next[b].key
    {
      assert s.forwarded[a] in s.forwarded;
    }
  }

  lemma CorrelateKeepsForwards(s: State, i: nat)
    requires Inv(s) && i < |s.delivered| && i !in s.routed
    ensures ForwardsOk(DoCorrelate(s, i))
  {
    var s' := DoCorrelate(s, i);
    assert s.delivered[i] in s.txns ==> TxnOk(s, s.delivered[i]);
    hide WorkersOk, TxnsOk, TrackingOk, TxnOk, DeliveriesOk, MintedInOrder;
    assert forall f :: f in s.forwarded ==> ForwardOk(s, f);
    forall f | f in s'.forwarded
      ensures ForwardOk(s', f)
    {
      CorrelateKeepsForward(s, i, f);
    }
    CorrelateNewKey(s, i);
  }

  lemma CorrelateTouches(s: State, i: nat)
    requires i < |s.delivered| && i !in s.routed
    ensures var s' := DoCorrelate(s, i);
            s' == s.(routed := s'.routed, txns := s'.txns, forwarded := s'.forwarded) && s'.txns.Items <= s.txns.Items
  {
  }

  lemma CorrelatePreserves(s: State, i: nat)
    requires Inv(s) && i < |s.delivered| && i !in s.routed
    ensures Inv(DoCorrelate(s, i))
  {
    hide InvWork, TrackingOk, DeliveriesOk, ForwardsOk, DoCorrelate;
    CorrelateTouches(s, i);
    SameAnswers(s, DoCorrelate(s, i));
    WorkStays(s, DoCorrelate(s, i));
    BooksStay(s, DoCorrelate(s, i));
    CorrelateKeepsForwards(s, i);
  }

  lemma RemovePreserves(s: State, key: Key)
    requires Inv(s)
    ensures Inv(Remove(s, key))
  {
    SameAnswers(s, Remove(s, key));
    WorkStays(s, Remove(s, key));
    BooksStay(s, Remove(s, key));
    ForwardsStay(s, Remove(s, key));
    hide InvWork, TrackingOk, DeliveriesOk, ForwardsOk, Remove;
  }

  lemma ClearPendingKeepsBooks(s: State, peer: Text)
    requires Inv(s)
    ensures TrackingOk(DoClearPending(s, peer))
  {
    hide TxnsOk, DeliveriesOk, ForwardsOk, MintedInOrder;
  }

  lemma ClearPendingKeepsAnswers(s: State, peer: Text)
    requires Inv(s)
    ensures DeliveriesOk(DoClearPending(s, peer))
  {
    hide Times, WorkersOk, TxnsOk, ForwardsOk, MintedInOrder;
    forall k
      ensures DeliveryOk(DoClearPending(s, peer), k)
    {
      assert DeliveryOk(s, k);
    }
  }

  lemma ClearPendingPreserves(s: State, peer: Text)
    requires Inv(s)
    ensures Inv(DoClearPending(s, peer))
  {
    ClearPendingKeepsAnswers(s, peer);
    WorkStays(s, DoClearPending(s, peer));
    ClearPendingKeepsBooks(s, peer);
    ForwardsStay(s, DoClearPending(s, peer));
    hide InvWork, TrackingOk, DeliveriesOk, ForwardsOk, DoClearPending;
  }

  /** Every step of every goroutine keeps all of it. */
  lemma StepPreserves(s: State, a: Action)
    requires Inv(s) && Enabled(s, a)
    ensures Inv(Do(s, a))
  {
    hide Inv, DoBegin, DoMint, DoStore, DoTrack, DoQueue, DoWrite, DoUndo, DoGiveUp, DoOwnRequest, DoAnswer,
         DoCorrelate, Remove, DoClearPending;
    match a {
      case Begin(w, req) => BeginPreserves(s, w, req);
      case Mint(w, peer, hop) => MintPreserves(s, w, peer, hop);
      case Store(w, now) => StorePreserves(s, w, now);
      case Track(w, open) => TrackPreserves(s, w, open);
      case Queue(w, how) => QueuePreserves(s, w, how);
      case Write(key, newE2e) => WritePreserves(s, key, newE2e);
      case Undo(w) => UndoPreserves(s, w);
      case GiveUp(w) => GiveUpPreserves(s, w);
      case OwnRequest(peer, e2e) => OwnRequestPreserves(s, peer, e2e);
      case Answer(key, e2e, retransmit) => AnswerPreserves(s, key, e2e, retransmit);
      case Correlate(i) => CorrelatePreserves(s, i);
      case ClearPending(peer) => ClearPendingPreserves(s, peer);
      case Failover(key, _) => RemovePreserves(s, key);
      case Expire(key, _) => RemovePreserves(s, key);
    }
  }

  lemma {:induction false} RunPreserves(s: State, actions: seq<Action>, to: State)
    requires Inv(s) && Run(s, actions, to)
    ensures Inv(to)
    decreases |actions|
  {
    hide Inv;
    if actions != [] {
      StepPreserves(s, actions[0]);
      RunPreserves(Do(s, actions[0]), actions[1..], to);
    }
  }

  lemma ReachableIsInv(s: State)
    requires Reachable(s)
    ensures Inv(s)
  {
    InitEstablishes();
    var actions :| Run(Init(), actions, s);
    hide Inv, Run;
    RunPreserves(Init(), actions, s);
  }

  // ---------------------------------------------------------------- the end-to-end IDs

  /** The request an ID was minted for is known. */
  ghost predicate Known(s: State, k: Key) {
    k in s.minted && (s.minted[k].Relayer? ==> s.minted[k].w in s.workers)
  }

  /** The end-to-end ID of that request. */
  ghost function E2eOf(s: State, k: Key): u32
    requires Known(s, k)
  {
    match s.minted[k]
    case Relayer(w) => s.workers[w].req.e2e
    case Own(e2e) => e2e
  }

  /** The ID is that of the request, unless the request had none. */
  ghost predicate Fits(s: State, k: Key, e2e: u32) { Known(s, k) && (E2eOf(s, k) == 0 || e2e == E2eOf(s, k)) }

  /** What is awaited, queued and was passed up fits the requests. */
  ghost predicate E2esOk(s: State) {
    && (forall k :: k in s.minted ==> Known(s, k))
    && (forall k :: k in s.pending ==> Fits(s, k, s.pending[k]))
    && (forall k :: k in s.outbox ==> Known(s, k) && s.outbox[k] == E2eOf(s, k))
    && |s.e2es| == |s.delivered| && (forall i :: 0 <= i < |s.delivered| ==> Fits(s, s.delivered[i], s.e2es[i]))
  }

  /** A step changes neither what an ID was minted for nor the request it was minted for. */
  ghost predicate SameRequests(s: State, s': State) {
    && (forall k :: k in s.minted ==> k in s'.minted && s'.minted[k] == s.minted[k])
    && (forall w :: w in s.workers ==> w in s'.workers && s'.workers[w].req == s.workers[w].req)
  }

  lemma StepSameRequests(s: State, a: Action)
    requires Inv(s) && Enabled(s, a)
    ensures SameRequests(s, Do(s, a))
  {
    hide Inv, Do;
    forall k | k in s.minted
      ensures k in Do(s, a).minted && Do(s, a).minted[k] == s.minted[k]
    {
      MintedGrows(s, a, k);
    }
    forall w | w in s.workers
      ensures w in Do(s, a).workers && Do(s, a).workers[w].req == s.workers[w].req
    {
      WorkersStay(s, a, w);
    }
  }

  /** A step that only takes from what is awaited or queued and mints nothing. */
  lemma E2esStay(s: State, s': State)
    requires E2esOk(s) && SameRequests(s, s') && s'.minted == s.minted
    requires s'.pending.Items <= s.pending.Items && s'.outbox.Items <= s.outbox.Items
    requires s'.delivered == s.delivered && s'.e2es == s.e2es
    ensures E2esOk(s')
  {
    forall k | k in s'.pending
      ensures Fits(s', k, s'.pending[k])
    {
      assert (k, s'.pending[k]) in s'.pending.Items;
      assert Fits(s, k, s.pending[k]);
    }
    forall k | k in s'.outbox
      ensures Known(s', k) && s'.outbox[k] == E2eOf(s', k)
    {
      assert (k, s'.outbox[k]) in s'.outbox.Items;
      assert Known(s, k);
    }
    forall i | 0 <= i < |s'.delivered|
      ensures Fits(s', s'.delivered[i], s'.e2es[i])
    {
      assert Fits(s, s.delivered[i], s.e2es[i]);
    }
  }

  lemma OthersKeepE2es(s: State, a: Action)
    requires E2esOk(s) && Enabled(s, a) && SameRequests(s, Do(s, a))
    requires a.Begin? || a.Store? || a.Undo? || a.GiveUp? || a.Correlate? || a.Failover? || a.Expire? || a.ClearPending?
    ensures E2esOk(Do(s, a))
  {
    var s' := Do(s, a);
    assert s'.pending.Items <= s.pending.Items && s'.outbox == s.outbox && s'.minted == s.minted
           && s'.delivered == s.delivered && s'.e2es == s.e2es by { OthersTouch(s, a); }
    hide Do, E2esOk, SameRequests;
    E2esStay(s, s');
  }

  lemma OthersTouch(s: State, a: Action)
    requires Enabled(s, a)
    requires a.Begin? || a.Store? || a.Undo? || a.GiveUp? || a.Correlate? || a.Failover? || a.Expire? || a.ClearPending?
    ensures var s' := Do(s, a);
            s'.pending.Items <= s.pending.Items && s'.outbox == s.outbox && s'.minted == s.minted
            && s'.delivered == s.delivered && s'.e2es == s.e2es
  {
    hide DoMint, DoTrack, DoQueue, DoWrite, DoOwnRequest, DoAnswer;
    if a.Store? || a.Correlate? {
      hide DoBegin, DoUndo, DoGiveUp, Remove, DoClearPending;
    } else {
      hide DoStore, DoCorrelate;
    }
  }

  /** A step that passes nothing up, and awaits or queues at most one more request under its own ID. */
  lemma E2esKept(s: State, s': State, key: Key)
    requires E2esOk(s) && SameRequests(s, s') && s'.delivered == s.delivered && s'.e2es == s.e2es
    requires forall k :: k in s'.minted ==> (k in s.minted || k == key)
    requires key in s'.minted ==> Known(s', key)
    requires s'.pending == s.pending
             || (key in s'.pending && s'.pending == s.pending[key := s'.pending[key]]
                 && Fits(s', key, s'.pending[key]))
    requires s'.outbox == s.outbox
             || (Known(s', key) && s'.outbox == s.outbox[key := E2eOf(s', key)])
    ensures E2esOk(s')
  {
    forall k | Known(s, k)
      ensures Known(s', k) && E2eOf(s', k) == E2eOf(s, k)
    {
    }
    hide E2eOf, SameRequests;
    assert forall i :: 0 <= i < |s.delivered| ==> Fits(s, s.delivered[i], s.e2es[i]);
  }

  lemma MintKeepsE2es(s: State, w: Wid, peer: Text, hop: Text)
    requires Inv(s) && E2esOk(s) && At(s, w) && s.workers[w].pc.Choosing? && Count(s, peer) + 1 < ID_SPACE
    requires SameRequests(s, DoMint(s, w, peer, hop))
    ensures E2esOk(DoMint(s, w, peer, hop))
  {
    hide Inv, E2esOk, SameRequests;
    E2esKept(s, DoMint(s, w, peer, hop), Key(peer, Count(s, peer) + 1));
  }

  lemma OwnRequestKeepsE2es(s: State, peer: Text, e2e: u32)
    requires Inv(s) && E2esOk(s) && Count(s, peer) + 1 < ID_SPACE && SameRequests(s, DoOwnRequest(s, peer, e2e))
    ensures E2esOk(DoOwnRequest(s, peer, e2e))
  {
    hide Inv, E2esOk, SameRequests;
    E2esKept(s, DoOwnRequest(s, peer, e2e), Key(peer, Count(s, peer) + 1));
  }

  lemma TrackKeepsE2es(s: State, w: Wid, open: bool)
    requires Inv(s) && E2esOk(s) && At(s, w) && s.workers[w].pc.Stored? && SameRequests(s, DoTrack(s, w, open))
    ensures E2esOk(DoTrack(s, w, open))
  {
    assert WorkerOk(s, w);
    hide Inv, E2esOk, SameRequests;
    E2esKept(s, DoTrack(s, w, open), s.workers[w].pc.key);
  }

  lemma QueueKeepsE2es(s: State, w: Wid, how: Taken)
    requires Inv(s) && E2esOk(s) && At(s, w) && s.workers[w].pc.Tracked? && SameRequests(s, DoQueue(s, w, how))
    ensures E2esOk(DoQueue(s, w, how))
  {
    assert WorkerOk(s, w);
    hide Inv, E2esOk, SameRequests;
    E2esKept(s, DoQueue(s, w, how), s.workers[w].pc.key);
  }

  lemma WriteKeepsE2es(s: State, key: Key, newE2e: u32)
    requires E2esOk(s) && key in s.outbox
    ensures E2esOk(DoWrite(s, key, newE2e))
  {
    var s' := DoWrite(s, key, newE2e);
    forall k | Known(s, k)
      ensures Known(s', k) && E2eOf(s', k) == E2eOf(s, k)
    {
    }
  }

  lemma AnswerKeepsE2es(s: State, key: Key, e2e: u32, retransmit: bool)
    requires E2esOk(s)
    ensures E2esOk(DoAnswer(s, key, e2e, retransmit))
  {
    var s' := DoAnswer(s, key, e2e, retransmit);
    forall k | Known(s, k)
      ensures Known(s', k) && E2eOf(s', k) == E2eOf(s, k)
    {
    }
  }

  lemma StepKeepsE2es(s: State, a: Action)
    requires Inv(s) && E2esOk(s) && Enabled(s, a)
    ensures E2esOk(Do(s, a))
  {
    StepSameRequests(s, a);
    hide Inv, E2esOk, SameRequests, DoBegin, DoMint, DoStore, DoTrack, DoQueue, DoWrite, DoUndo, DoGiveUp,
         DoOwnRequest, DoAnswer, DoCorrelate, Remove, DoClearPending;
    match a {
      case Mint(w, peer, hop) => MintKeepsE2es(s, w, peer, hop);
      case OwnRequest(peer, e2e) => OwnRequestKeepsE2es(s, peer, e2e);
      case Track(w, open) => TrackKeepsE2es(s, w, open);
      case Queue(w, how) => QueueKeepsE2es(s, w, how);
      case Write(key, newE2e) => WriteKeepsE2es(s, key, newE2e);
      case Answer(key, e2e, retransmit) => AnswerKeepsE2es(s, key, e2e, retransmit);
      case _ => OthersKeepE2es(s, a);
    }
  }

  lemma {:induction false} RunKeepsE2es(s: State, actions: seq<Action>, to: State)
    requires Inv(s) && E2esOk(s) && Run(s, actions, to)
    ensures E2esOk(to)
    decreases |actions|
  {
    hide Inv, E2esOk;
    if actions != [] {
      StepPreserves(s, actions[0]);
      StepKeepsE2es(s, actions[0]);
      RunKeepsE2es(Do(s, actions[0]), actions[1..], to);
    }
  }

  /** In every reachable state each answer passed up has the end-to-end ID of the request of its key, if that has
      one. */
  lemma ReachableE2es(s: State)
    requires Reachable(s)
    ensures E2esOk(s)
  {
    InitEstablishes();
    assert E2esOk(Init());
    var actions :| Run(Init(), actions, s);
    hide Inv, Run, E2esOk;
    RunKeepsE2es(Init(), actions, s);
  }

  // ---------------------------------------------------------------- what that means

  /** The request that was, is or may yet be sent to `k.peer` under `k.hbh`. */
  ghost predicate RequestUnder(s: State, k: Key, w: Wid) {
    k in s.minted && s.minted[k] == Relayer(w) && w in s.workers
  }

  /**
   * Correlation: an answer is only ever forwarded to the peer the matching request came from, under
   * that request's own ID, and whatever was sent to the answering peer under that ID is that request; the
   * answer had the end-to-end ID of that request, unless the request had none.
   */
  lemma ForwardedToOriginator(s: State, f: Forward)
    requires Reachable(s) && f in s.forwarded
    ensures exists w ::
              RequestUnder(s, f.key, w) && s.workers[w].req.origin == Some(f.to) && s.workers[w].req.hbh == f.hbh
    ensures |s.e2es| == |s.delivered| && f.i < |s.delivered| && s.delivered[f.i] == f.key
    ensures forall w :: RequestUnder(s, f.key, w) ==>
              && s.workers[w].req.origin == Some(f.to) && s.workers[w].req.hbh == f.hbh
              && (s.workers[w].req.e2e == 0 || s.e2es[f.i] == s.workers[w].req.e2e)
    ensures f.key in s.sent ==> RequestUnder(s, f.key, s.sent[f.key])
    ensures f.key in s.tracked
  {
    ReachableIsInv(s);
    ReachableE2es(s);
    assert ForwardOk(s, f);
    assert RequestUnder(s, f.key, s.minted[f.key].w);
    assert Fits(s, s.delivered[f.i], s.e2es[f.i]);
    TimesOf(s.delivered, f.key);
    assert DeliveryOk(s, f.key);
  }

  /**
   * Whatever came before, an answer is passed up only if it is no retransmission, its key is awaited and
   * its end-to-end ID is that of the request its key was minted for, unless that request had none.
   */
  lemma AnswerHasBothIds(s: State, key: Key, e2e: u32, retransmit: bool)
    requires Reachable(s) && DoAnswer(s, key, e2e, retransmit).delivered != s.delivered
    ensures !retransmit && key in s.pending
    ensures forall w :: RequestUnder(s, key, w) ==> s.workers[w].req.e2e == 0 || s.workers[w].req.e2e == e2e
    ensures key in s.minted && (s.minted[key].Own? ==> s.minted[key].e2e == 0 || s.minted[key].e2e == e2e)
  {
    ReachableE2es(s);
    assert Fits(s, key, s.pending[key]);
  }

  /** And an awaited request that was not written again takes precisely such an answer. */
  lemma RightAnswerIsTaken(s: State, key: Key, w: Wid, e2e: u32)
    requires Reachable(s) && key in s.pending && RequestUnder(s, key, w) && s.workers[w].req.e2e != 0
    ensures DoAnswer(s, key, e2e, false).delivered
            == if e2e == s.workers[w].req.e2e then s.delivered + [key] else s.delivered
  {
    ReachableE2es(s);
    assert Fits(s, key, s.pending[key]);
  }

  /**
   * The wrong answer spends the request: the peer stops waiting, and the right answer that comes next is
   * dropped like any other.
   */
  lemma WrongAnswerSpends(s: State, key: Key, w: Wid, wrong: u32, e2e: u32, retransmit: bool)
    requires Reachable(s) && key in s.pending && RequestUnder(s, key, w)
    requires s.workers[w].req.e2e != 0 && wrong != s.workers[w].req.e2e
    ensures var next := DoAnswer(s, key, wrong, false);
      && next.delivered == s.delivered && DoAnswer(next, key, e2e, retransmit) == next
  {
    RightAnswerIsTaken(s, key, w, wrong);
  }

  /** What an ID was minted for never changes afterwards, nor does the request of a goroutine. */
  lemma {:induction false} NamesAreFixed(s: State, actions: seq<Action>, to: State, k: Key, w: Wid)
    requires Inv(s) && Run(s, actions, to) && RequestUnder(s, k, w)
    ensures RequestUnder(to, k, w) && to.workers[w].req == s.workers[w].req
    decreases |actions|
  {
    if actions != [] {
      StepPreserves(s, actions[0]);
      StepFixesNames(s, actions[0], k, w);
      hide Inv, Do, RequestUnder;
      NamesAreFixed(Do(s, actions[0]), actions[1..], to, k, w);
    }
  }

  /** Which steps mint, and which write from a fallback queue. */
  lemma OnlyTheseMint(s: State, a: Action)
    requires Enabled(s, a) && !a.Mint? && !a.OwnRequest?
    ensures Do(s, a).minted == s.minted
  {
    hide DoMint, DoOwnRequest;
    if a.Store? || a.Track? || a.Queue? {
      hide DoBegin, DoUndo, DoGiveUp, DoWrite, DoClearPending, DoCorrelate, DoAnswer, Remove;
    } else if a.Answer? || a.Correlate? {
      hide DoStore, DoTrack, DoQueue, DoBegin, DoUndo, DoGiveUp, DoWrite, DoClearPending, Remove;
    } else {
      hide DoStore, DoTrack, DoQueue, DoAnswer, DoCorrelate;
    }
  }

  lemma OnlyWriteWrites(s: State, a: Action)
    requires Enabled(s, a) && !a.Write?
    ensures Do(s, a).written == s.written && Do(s, a).early == s.early
  {
    hide DoWrite;
    if a.Store? || a.Track? || a.Queue? || a.Answer? {
      hide DoBegin, DoMint, DoUndo, DoGiveUp, DoOwnRequest, DoClearPending, DoCorrelate, Remove;
    } else {
      hide DoStore, DoTrack, DoQueue, DoAnswer;
    }
  }

  lemma MintedGrows(s: State, a: Action, k: Key)
    requires Inv(s) && Enabled(s, a) && k in s.minted
    ensures k in Do(s, a).minted && Do(s, a).minted[k] == s.minted[k]
  {
    if a.Mint? {
      MintIsNew(s, a.peer);
    } else if a.OwnRequest? {
      MintIsNew(s, a.peer);
    } else {
      OnlyTheseMint(s, a);
      hide Do;
    }
    hide Inv;
  }

  lemma OnlyWorkersWork(s: State, a: Action)
    requires Enabled(s, a) && !a.Begin? && !a.Mint? && !a.Store? && !a.Track? && !a.Queue? && !a.Undo? && !a.GiveUp?
    ensures Do(s, a).workers == s.workers
  {
    hide DoMint, DoStore, DoTrack, DoQueue, DoUndo, DoGiveUp, DoBegin;
    if a.Answer? || a.Correlate? {
      hide DoWrite, DoOwnRequest, DoClearPending, Remove;
    } else {
      hide DoAnswer, DoCorrelate;
    }
  }

  lemma NonSendersStay(s: State, a: Action, w: Wid)
    requires Enabled(s, a) && w in s.workers && (a.Mint? || a.Store? || a.Undo? || a.GiveUp? || a.Begin?)
    ensures w in Do(s, a).workers && Do(s, a).workers[w].req == s.workers[w].req
  {
    hide DoTrack, DoQueue, DoCorrelate, DoAnswer, DoWrite, DoOwnRequest, DoClearPending, Remove;
  }

  lemma WorkersStay(s: State, a: Action, w: Wid)
    requires Enabled(s, a) && w in s.workers
    ensures w in Do(s, a).workers && Do(s, a).workers[w].req == s.workers[w].req
  {
    if a.Track? || a.Queue? {
      hide DoMint, DoStore, DoUndo, DoGiveUp, DoCorrelate, DoAnswer, DoWrite, DoOwnRequest, DoClearPending, DoBegin,
           Remove;
    } else if a.Mint? || a.Store? || a.Undo? || a.GiveUp? || a.Begin? {
      NonSendersStay(s, a, w);
      hide Do;
    } else {
      OnlyWorkersWork(s, a);
      hide Do;
    }
  }

  lemma StepFixesNames(s: State, a: Action, k: Key, w: Wid)
    requires Inv(s) && Enabled(s, a) && RequestUnder(s, k, w)
    ensures RequestUnder(Do(s, a), k, w) && Do(s, a).workers[w].req == s.workers[w].req
  {
    MintedGrows(s, a, k);
    WorkersStay(s, a, w);
    hide Inv, Do;
  }

  /** Each transaction is consumed at most once: no two answers are forwarded for one key, however many come. */
  lemma ConsumedOnce(s: State, i: nat, j: nat)
    requires Reachable(s) && i < j < |s.forwarded|
    ensures s.forwarded[i].key != s.forwarded[j].key
    ensures s.forwarded[i].key !in s.txns && s.forwarded[j].key !in s.txns
  {
    ReachableIsInv(s);
    assert s.forwarded[i] in s.forwarded && s.forwarded[j] in s.forwarded;
    assert ForwardOk(s, s.forwarded[i]) && ForwardOk(s, s.forwarded[j]);
  }

  /**
   * A peer passes up at most one answer for each request it tracks, or two if the request was written
   * from the fallback queue after an answer had been accepted; and none for any other request.
   */
  lemma AnsweredAtMost(s: State, k: Key)
    requires Reachable(s)
    ensures Times(s.delivered, k) <= if k in s.early then 2 else 1
    ensures k in s.delivered ==> k in s.tracked
    ensures |s.e2es| == |s.delivered|
    ensures forall i, w :: 0 <= i < |s.delivered| && s.delivered[i] == k && RequestUnder(s, k, w) ==>
              s.workers[w].req.e2e == 0 || s.e2es[i] == s.workers[w].req.e2e
  {
    ReachableIsInv(s);
    ReachableE2es(s);
    assert forall i :: 0 <= i < |s.delivered| ==> Fits(s, s.delivered[i], s.e2es[i]);
    TimesOf(s.delivered, k);
    assert DeliveryOk(s, k);
  }

  /** A request that has been written stays out of the fallback queue, so nothing makes its answers early later. */
  lemma StepSettles(s: State, a: Action, k: Key)
    requires Inv(s) && Enabled(s, a) && k in s.written
    ensures k in Do(s, a).written && (k in Do(s, a).early <==> k in s.early)
  {
    if !a.Write? {
      OnlyWriteWrites(s, a);
      hide Do, Inv;
    } else {
      hide InvWork, DeliveriesOk, ForwardsOk;
      assert a.key != k;
    }
  }

  lemma {:induction false} RunSettles(s: State, actions: seq<Action>, to: State, k: Key)
    requires Inv(s) && Run(s, actions, to) && k in s.written
    ensures Inv(to) && (k in to.early <==> k in s.early)
    decreases |actions|
  {
    if actions != [] {
      StepPreserves(s, actions[0]);
      StepSettles(s, actions[0], k);
      hide Inv, Do;
      RunSettles(Do(s, actions[0]), actions[1..], to, k);
    }
  }

  /** Some run from here passes up two answers under the key. */
  ghost predicate CanAnswerTwice(s: State, k: Key) {
    exists actions, to :: Run(s, actions, to) && Times(to.delivered, k) >= 2
  }

  /**
   * The fallback write lets a second answer through exactly when one was accepted before it: then the
   * very next answer with the right IDs is the second, and otherwise no run has two.
   */
  lemma AnsweredTwiceExactly(s: State, k: Key, newE2e: u32)
    requires Reachable(s) && k in s.outbox
    ensures CanAnswerTwice(DoWrite(s, k, newE2e), k) <==> k in s.delivered
  {
    ReachableIsInv(s);
    var w := DoWrite(s, k, newE2e);
    WritePreserves(s, k, newE2e);
    TimesOf(s.delivered, k);
    if k in s.delivered {
      SecondAnswer(w, k);
    } else {
      assert k !in w.early by { assert TrackingOk(s); }
      forall actions, to | Run(w, actions, to)
        ensures Times(to.delivered, k) < 2
      {
        RunSettles(w, actions, to, k);
        assert DeliveryOk(to, k);
      }
    }
  }

  lemma SecondAnswer(w: State, k: Key)
    requires k in w.pending && Times(w.delivered, k) >= 1
    ensures CanAnswerTwice(w, k)
  {
    var a := Answer(k, w.pending[k], false);
    TimesNext(w.delivered, k, k);
    assert Run(Do(w, a), [a][1..], Do(w, a));
    assert Run(w, [a], Do(w, a));
  }

  lemma {:induction false} RunOn(from: State, actions: seq<Action>, s: State, a: Action) returns (more: seq<Action>)
    requires Run(from, actions, s) && Enabled(s, a)
    ensures Run(from, more, Do(s, a))
    decreases |actions|
  {
    hide Do, Enabled;
    if actions == [] {
      more := [a];
      assert Run(Do(from, a), more[1..], Do(s, a));
    } else {
      var rest := RunOn(Do(from, actions[0]), actions[1..], s, a);
      more := [actions[0]] + rest;
      assert more[1..] == rest;
    }
  }

  /** The state of a single relay to `peer` whose request waits in the fallback queue. */
  function Waiting(req: Request, peer: Text, hop: Text, now: int): State {
    var k := Key(peer, 1);
    State(map[peer := 1], if req.origin.Some? then map[k := Txn(req.origin.value, req.hbh, hop, now)] else map[],
          map[0 := Worker(req, 1, Relayed(k))], map[k := req.e2e], map[k := req.e2e], [], {}, [], [],
          map[k := Relayer(0)], {k}, map[k := 0], if req.origin.Some? then {k} else {}, {}, {})
  }

  /** The same relay with its first ID minted. */
  function Asking(req: Request, peer: Text, hop: Text): State {
    Init().(counters := map[peer := 1], minted := map[Key(peer, 1) := Relayer(0)],
            workers := map[0 := Worker(req, 1, Minted(Key(peer, 1), hop, req.hbh))])
  }

  lemma Asks(req: Request, peer: Text, hop: Text) returns (actions: seq<Action>)
    ensures Run(Init(), actions, Asking(req, peer, hop))
  {
    var s1 := DoBegin(Init(), 0, req);
    actions := RunOn(Init(), [], Init(), Begin(0, req));
    hide Run;
    actions := RunOn(Init(), actions, s1, Mint(0, peer, hop));
    assert DoMint(s1, 0, peer, hop) == Asking(req, peer, hop);
  }

  lemma AskThenStore(req: Request, peer: Text, hop: Text, now: int)
    ensures DoStore(Asking(req, peer, hop), 0, now)
         == Waiting(req, peer, hop, now).(workers := map[0 := Worker(req, 1, Stored(Key(peer, 1), hop, req.hbh))],
                                          pending := map[], outbox := map[], tracked := {}, sent := map[])
  {
  }

  /** For every request and peer: relay it, with the writer refusing it and the fallback queue taking it. */
  lemma Waits(req: Request, peer: Text, hop: Text, now: int) returns (actions: seq<Action>)
    ensures Run(Init(), actions, Waiting(req, peer, hop, now))
  {
    actions := Asks(req, peer, hop);
    var s2 := Asking(req, peer, hop);
    AskThenStore(req, peer, hop, now);
    var s3 := DoStore(s2, 0, now);
    hide Run;
    actions := RunOn(Init(), actions, s2, Store(0, now));
    hide DoStore;
    var s4 := DoTrack(s3, 0, true);
    actions := RunOn(Init(), actions, s3, Track(0, true));
    actions := RunOn(Init(), actions, s4, Queue(0, ByFallback));
    assert DoQueue(s4, 0, ByFallback) == Waiting(req, peer, hop, now);
  }

  /** And so a run that passes up two answers to that request. */
  lemma TwoAnswers(req: Request, peer: Text, hop: Text, now: int, newE2e: u32) returns (s: State)
    ensures Reachable(s) && Times(s.delivered, Key(peer, 1)) == 2
  {
    var k := Key(peer, 1);
    var s5 := Waiting(req, peer, hop, now);
    var actions := Waits(req, peer, hop, now);
    actions := RunOn(Init(), actions, s5, Answer(k, req.e2e, false));
    var s6 := DoAnswer(s5, k, req.e2e, false);
    actions := RunOn(Init(), actions, s6, Write(k, newE2e));
    var s7 := DoWrite(s6, k, newE2e);
    actions := RunOn(Init(), actions, s7, Answer(k, s7.pending[k], false));
    s := DoAnswer(s7, k, s7.pending[k], false);
    TimesNext([], k, k);
    TimesNext([k], k, k);
    assert s6.delivered == [k] && s.delivered == [k] + [k];
  }

  /** Once a peer has forgotten what it awaits, answers from it are dropped; those of other peers fare as before. */
  lemma ForgottenIsDropped(s: State, peer: Text, key: Key, e2e: u32, retransmit: bool)
    ensures DoAnswer(DoClearPending(s, peer), key, e2e, retransmit).delivered
            == if key.peer == peer then s.delivered else DoAnswer(s, key, e2e, retransmit).delivered
  {
    var cleared := DoClearPending(s, peer);
    assert key in cleared.pending <==> key in s.pending && key.peer != peer;
  }

  // ---------------------------------------------------------------- the two walks over the transactions

  /** What FailoverPeer leaves when its walk has come by these keys, and what sweepExpired leaves. */
  function FailedOver(txns: map<Key, Txn>, keys: seq<Key>, identity: Text): map<Key, Txn> {
    map k | k in txns && (k !in keys || (txns[k].origin != identity && txns[k].outbound != identity)) :: txns[k]
  }

  function Unexpired(txns: map<Key, Txn>, keys: seq<Key>, cutoff: int): map<Key, Txn> {
    map k | k in txns && (k !in keys || txns[k].created >= cutoff) :: txns[k]
  }

  function Failovers(keys: seq<Key>, identity: Text): seq<Action> {
    seq(|keys|, i requires 0 <= i < |keys| => Failover(keys[i], identity))
  }

  function Expiries(keys: seq<Key>, cutoff: int): seq<Action> {
    seq(|keys|, i requires 0 <= i < |keys| => Expire(keys[i], cutoff))
  }

  lemma FailoverRemovesOne(s: State, key: Key, identity: Text)
    ensures Do(s, Failover(key, identity)) == s.(txns := FailedOver(s.txns, [key], identity))
  {
    assert Do(s, Failover(key, identity)).txns == FailedOver(s.txns, [key], identity);
  }

  lemma FailedOverNext(txns: map<Key, Txn>, keys: seq<Key>, identity: Text)
    requires keys != []
    ensures FailedOver(FailedOver(txns, [keys[0]], identity), keys[1..], identity) == FailedOver(txns, keys, identity)
  {
    assert keys == [keys[0]] + keys[1..];
  }

  /**
   * The walk of a failover takes away precisely the transactions that came from the peer or went to it,
   * in any order of the keys; everything else stays.
   */
  lemma {:induction false} FailoverRemoves(s: State, keys: seq<Key>, identity: Text)
    ensures Run(s, Failovers(keys, identity), s.(txns := FailedOver(s.txns, keys, identity)))
    decreases |keys|
  {
    if keys == [] {
      assert FailedOver(s.txns, keys, identity) == s.txns;
    } else {
      var s1 := s.(txns := FailedOver(s.txns, [keys[0]], identity));
      FailoverRemovesOne(s, keys[0], identity);
      FailedOverNext(s.txns, keys, identity);
      FailoverRemoves(s1, keys[1..], identity);
      assert Failovers(keys, identity)[1..] == Failovers(keys[1..], identity);
      hide Do, FailedOver;
    }
  }

  lemma ExpiryRemovesOne(s: State, key: Key, cutoff: int)
    ensures Do(s, Expire(key, cutoff)) == s.(txns := Unexpired(s.txns, [key], cutoff))
  {
    assert Do(s, Expire(key, cutoff)).txns == Unexpired(s.txns, [key], cutoff);
  }

  lemma UnexpiredNext(txns: map<Key, Txn>, keys: seq<Key>, cutoff: int)
    requires keys != []
    ensures Unexpired(Unexpired(txns, [keys[0]], cutoff), keys[1..], cutoff) == Unexpired(txns, keys, cutoff)
  {
    assert keys == [keys[0]] + keys[1..];
  }

  /** The walk of the sweep takes away precisely the transactions created before the cutoff. */
  lemma {:induction false} ExpiryRemoves(s: State, keys: seq<Key>, cutoff: int)
    ensures Run(s, Expiries(keys, cutoff), s.(txns := Unexpired(s.txns, keys, cutoff)))
    decreases |keys|
  {
    if keys == [] {
      assert Unexpired(s.txns, keys, cutoff) == s.txns;
    } else {
      var s1 := s.(txns := Unexpired(s.txns, [keys[0]], cutoff));
      ExpiryRemovesOne(s, keys[0], cutoff);
      UnexpiredNext(s.txns, keys, cutoff);
      ExpiryRemoves(s1, keys[1..], cutoff);
      assert Expiries(keys, cutoff)[1..] == Expiries(keys[1..], cutoff);
      hide Do, Unexpired;
    }
  }

  // ---------------------------------------------------------------- success and failure

  /**
   * All or nothing: a relay that gave up holds no transaction, has nothing sent, and its error answer
   * carries the inbound ID; one that succeeded sent the request once and holds at most that transaction.
   */
  lemma AllOrNothing(s: State, w: Wid)
    requires Reachable(s) && w in s.workers
    ensures var x := s.workers[w];
      && (x.pc.Failed? ==> x.hbh == x.req.hbh)
      && (x.pc.Failed? || x.pc.Choosing? ==> forall k :: RequestUnder(s, k, w) ==> k !in s.txns && k !in s.sent)
      && (x.pc.Relayed? ==>
            && x.pc.key in s.sent
            && forall k :: RequestUnder(s, k, w) && (k in s.txns || k in s.sent) ==> k == x.pc.key)
  {
    ReachableIsInv(s);
    assert WorkerOk(s, w);
  }
}
