/**
 * The lock-free multi-producer, single-consumer ring queue behind a peer's writer, as a
 * transition system: any number of producers run Push, one writer goroutine runs the
 * batch loop, and one atomic action (a load, a store, the compare-and-swap, or a channel
 * operation) happens per step. Message pointers are numbers; nil is `None`.
 */
module RingQueue {
  import opened Bits
  import opened Bytes

  type Pid = nat
  type Msg = nat

  datatype Slot = Slot(msg: Option<Msg>, ready: bool)

  /** Where a producer stands inside Push. A producer outside Push is not in the map. */
  datatype Producer =
    | Starting(msg: Msg)                      // top of the retry loop
    | LoadedHead(msg: Msg, h: nat)            // head loaded
    | Loaded(msg: Msg, h: nat, t: nat)        // tail loaded, not full: about to compare-and-swap
    | Claimed(msg: Msg, h: nat)               // owns index h, slot not written yet
    | Written(msg: Msg, h: nat)               // slot.msg written, ready not set
    | Published(msg: Msg, h: nat)             // ready set, signal still to come

  /** Where the writer goroutine stands. `full` remembers whether the last batch was full. */
  datatype Consumer =
    | Stopped(full: bool)
    | Waiting(full: bool)
    | Looping(count: nat)                     // top of the batch loop
    | LoadedTail(count: nat, t: nat)
    | Spinning(count: nat, t: nat)            // queue seen non-empty, waiting for ready
    | Took(count: nat, t: nat)                // message copied into the batch
    | Cleared(count: nat, t: nat)             // slot.msg set to nil
    | Unready(count: nat, t: nat)             // ready set to false, tail not stored yet

  /** Auxiliary record of one successful claim: who claimed the index, and for which message. */
  datatype Claim = Claim(pid: Pid, msg: Msg)

  datatype State = State(
    k: nat,                                   // capacity is Pow2(k)
    batch: nat,                               // writerBatchSize
    head: nat,
    tail: nat,
    slots: seq<Slot>,
    token: bool,                              // the one-element notEmpty channel
    prods: map<Pid, Producer>,
    cons: Consumer,
    log: seq<Claim>,                          // auxiliary: claims in index order
    popped: seq<Msg>,                         // auxiliary: messages handed to the batch
    accepted: map<Pid, seq<Msg>>)             // auxiliary: messages each producer got in, in order

  const WRAP: nat := 0x1_0000_0000_0000_0000

  /** `head-tail` on unsigned 64-bit counters: a stale head below the tail wraps around. */
  function Diff(h: nat, t: nat): int {
    if t <= h then h - t else h - t + WRAP
  }

  /** The slot of index `i`. */
  function SlotOf(i: nat, k: nat): (r: nat)
    ensures r < Pow2(k)
  {
    i % Pow2(k)
  }

  /** The code masks with capacity minus one; for a power of two that is the remainder. */
  lemma MaskIsSlot(i: nat, k: nat)
    ensures And(i, Pow2(k) - 1) == SlotOf(i, k)
  {
    MaskIsMod(i, k);
  }

  /** Within one lap of the ring no other index shares the slot of `h`. */
  lemma SlotIsPrivate(h: nat, lo: nat, k: nat)
    requires lo <= h < lo + Pow2(k)
    ensures forall i: nat :: lo <= i < lo + Pow2(k) && i != h ==> SlotOf(i, k) != SlotOf(h, k)
  {
    forall i: nat | lo <= i < lo + Pow2(k) && i != h
      ensures SlotOf(i, k) != SlotOf(h, k)
    {
      NearbyModsDiffer(if i < h then i else h, if i < h then h else i, Pow2(k));
    }
  }

  lemma SameSlotNextLap(i: nat, k: nat)
    ensures SlotOf(i + Pow2(k), k) == SlotOf(i, k)
  {
    NextLap(i, Pow2(k));
  }

  // ---------------------------------------------------------------- transitions

  predicate At(s: State, p: Pid) { |s.slots| == Pow2(s.k) && p in s.prods }

  function AcceptedBy(accepted: map<Pid, seq<Msg>>, p: Pid): seq<Msg> {
    if p in accepted then accepted[p] else []
  }

  // Push, one atomic action at a time.

  function Begin(s: State, p: Pid, m: Msg): State {
    s.(prods := s.prods[p := Starting(m)])
  }

  function LoadHead(s: State, p: Pid): State
    requires At(s, p) && s.prods[p].Starting?
  {
    s.(prods := s.prods[p := LoadedHead(s.prods[p].msg, s.head)])
  }

  function LoadTail(s: State, p: Pid): State
    requires At(s, p) && s.prods[p].LoadedHead?
  {
    var m, h := s.prods[p].msg, s.prods[p].h;
    if Diff(h, s.tail) >= Pow2(s.k) then s.(prods := s.prods - {p})
    else s.(prods := s.prods[p := Loaded(m, h, s.tail)])
  }

  function Cas(s: State, p: Pid): State
    requires At(s, p) && s.prods[p].Loaded?
  {
    var m, h := s.prods[p].msg, s.prods[p].h;
    if s.head == h then
      s.(head := h + 1,
         prods := s.prods[p := Claimed(m, h)],
         log := s.log + [Claim(p, m)],
         accepted := s.accepted[p := AcceptedBy(s.accepted, p) + [m]])
    else s.(prods := s.prods[p := Starting(m)])
  }

  function WriteMsg(s: State, p: Pid): State
    requires At(s, p) && s.prods[p].Claimed?
  {
    var m, h := s.prods[p].msg, s.prods[p].h;
    var x := SlotOf(h, s.k);
    s.(slots := s.slots[x := s.slots[x].(msg := Some(m))], prods := s.prods[p := Written(m, h)])
  }

  function SetReady(s: State, p: Pid): State
    requires At(s, p) && s.prods[p].Written?
  {
    var m, h := s.prods[p].msg, s.prods[p].h;
    var x := SlotOf(h, s.k);
    s.(slots := s.slots[x := s.slots[x].(ready := true)], prods := s.prods[p := Published(m, h)])
  }

  function Signal(s: State, p: Pid): State
    requires At(s, p) && s.prods[p].Published?
  {
    s.(token := true, prods := s.prods - {p})
  }

  // PopBatch inside writerLoop, one atomic action at a time.

  function ReadHead(s: State): State
    requires s.cons.LoadedTail?
  {
    if s.cons.t >= s.head then s.(cons := Waiting(false))
    else s.(cons := Spinning(s.cons.count, s.cons.t))
  }

  predicate SlotReady(s: State, t: nat)
    requires |s.slots| == Pow2(s.k)
  {
    s.slots[SlotOf(t, s.k)].ready && s.slots[SlotOf(t, s.k)].msg.Some?
  }

  function TakeMsg(s: State): State
    requires |s.slots| == Pow2(s.k) && s.cons.Spinning? && SlotReady(s, s.cons.t)
  {
    s.(cons := Took(s.cons.count, s.cons.t),
       popped := s.popped + [s.slots[SlotOf(s.cons.t, s.k)].msg.value])
  }

  function ClearMsg(s: State): State
    requires |s.slots| == Pow2(s.k) && s.cons.Took?
  {
    var x := SlotOf(s.cons.t, s.k);
    s.(slots := s.slots[x := s.slots[x].(msg := None)], cons := Cleared(s.cons.count, s.cons.t))
  }

  function ClearReady(s: State): State
    requires |s.slots| == Pow2(s.k) && s.cons.Cleared?
  {
    var x := SlotOf(s.cons.t, s.k);
    s.(slots := s.slots[x := s.slots[x].(ready := false)], cons := Unready(s.cons.count, s.cons.t))
  }

  function StoreTail(s: State): State
    requires s.cons.Unready?
  {
    s.(tail := s.cons.t + 1, cons := Looping(s.cons.count + 1))
  }

  datatype Action =
    | ABegin(p: Pid, m: Msg) | ALoadHead(p: Pid) | ALoadTail(p: Pid) | ACas(p: Pid)
    | AWriteMsg(p: Pid) | ASetReady(p: Pid) | ASignal(p: Pid)
    | AStop | AStart | ATakeToken | ABatchFull | AReadTail | AReadHead
    | ATakeMsg | AClearMsg | AClearReady | AStoreTail

  predicate Enabled(s: State, a: Action) {
    |s.slots| == Pow2(s.k) &&
    match a
    case ABegin(p, _) => p !in s.prods
    case ALoadHead(p) => p in s.prods && s.prods[p].Starting?
    case ALoadTail(p) => p in s.prods && s.prods[p].LoadedHead?
    case ACas(p) => p in s.prods && s.prods[p].Loaded?
    case AWriteMsg(p) => p in s.prods && s.prods[p].Claimed?
    case ASetReady(p) => p in s.prods && s.prods[p].Written?
    case ASignal(p) => p in s.prods && s.prods[p].Published?
    case AStop => s.cons.Waiting?
    case AStart => s.cons.Stopped?
    case ATakeToken => s.cons.Waiting? && s.token
    case ABatchFull => s.cons.Looping? && s.cons.count >= s.batch
    case AReadTail => s.cons.Looping? && s.cons.count < s.batch
    case AReadHead => s.cons.LoadedTail?
    case ATakeMsg => s.cons.Spinning? && SlotReady(s, s.cons.t)
    case AClearMsg => s.cons.Took?
    case AClearReady => s.cons.Cleared?
    case AStoreTail => s.cons.Unready?
  }

  function Do(s: State, a: Action): State
    requires Enabled(s, a)
  {
    match a
    case ABegin(p, m) => Begin(s, p, m)
    case ALoadHead(p) => LoadHead(s, p)
    case ALoadTail(p) => LoadTail(s, p)
    case ACas(p) => Cas(s, p)
    case AWriteMsg(p) => WriteMsg(s, p)
    case ASetReady(p) => SetReady(s, p)
    case ASignal(p) => Signal(s, p)
    case AStop => s.(cons := Stopped(s.cons.full))
    case AStart => s.(cons := Waiting(s.cons.full))
    case ATakeToken => s.(token := false, cons := Looping(0))
    case ABatchFull => s.(cons := Waiting(true))
    case AReadTail => s.(cons := LoadedTail(s.cons.count, s.tail))
    case AReadHead => ReadHead(s)
    case ATakeMsg => TakeMsg(s)
    case AClearMsg => ClearMsg(s)
    case AClearReady => ClearReady(s)
    case AStoreTail => StoreTail(s)
  }

  predicate Init(s: State) {
    && s.head == s.tail == 0
    && s.slots == seq(Pow2(s.k), _ => Slot(None, false))
    && !s.token && s.prods == map[] && s.cons == Stopped(false) && 0 < s.batch
    && s.log == [] && s.popped == [] && s.accepted == map[]
  }

  /** The state after a run of actions, if every action was enabled in turn. */
  function Run(s: State, acts: seq<Action>): Option<State>
    decreases |acts|
  {
    if acts == [] then Some(s)
    else if Enabled(s, acts[0]) then Run(Do(s, acts[0]), acts[1..])
    else None
  }

  predicate Reachable(s0: State, acts: seq<Action>, s: State) {
    Init(s0) && Run(s0, acts) == Some(s)
  }

  // ---------------------------------------------------------------- invariant

  predicate Holds(pr: Producer) { pr.Claimed? || pr.Written? }

  predicate InFlight(pr: Producer) { pr.Claimed? || pr.Written? || pr.Published? }

  predicate Owns(s: State, p: Pid, i: nat) {
    p in s.prods && Holds(s.prods[p]) && s.prods[p].h == i
  }

  predicate Draining(c: Consumer) { c.Took? || c.Cleared? || c.Unready? }

  predicate Shape(s: State) {
    && |s.slots| == Pow2(s.k)
    && s.tail <= s.head <= s.tail + Pow2(s.k)
    && |s.log| == s.head
    && 0 < s.batch
  }

  ghost predicate ProducersOk(s: State)
    requires Shape(s)
  {
    forall p {:trigger s.prods[p]} | p in s.prods ::
      var pr := s.prods[p];
      && (pr.LoadedHead? ==> pr.h <= s.head)
      && (pr.Loaded? ==> pr.h <= s.head && pr.t <= s.tail && Diff(pr.h, pr.t) < Pow2(s.k))
      && (Holds(pr) ==> s.tail <= pr.h < s.head && s.log[pr.h] == Claim(p, pr.msg))
      && (Holds(pr) ==> !s.slots[SlotOf(pr.h, s.k)].ready)
      && (pr.Written? ==> s.slots[SlotOf(pr.h, s.k)].msg == Some(pr.msg))
      && (pr.Published? ==> pr.h < s.head)
  }

  /** What the slot of a live index contains once its producer has published it. */
  predicate Filled(s: State, i: nat)
    requires Shape(s) && i < s.head
  {
    var sl := s.slots[SlotOf(i, s.k)];
    if i == s.tail && s.cons.Cleared? then sl == Slot(None, true)
    else if i == s.tail && s.cons.Unready? then sl == Slot(None, false)
    else sl == Slot(Some(s.log[i].msg), true)
  }

  ghost predicate SlotsOk(s: State)
    requires Shape(s)
  {
    && (forall i: nat {:trigger Filled(s, i)} {:trigger s.log[i]} | s.tail <= i < s.head ::
          if Owns(s, s.log[i].pid, i) then !(i == s.tail && Draining(s.cons)) else Filled(s, i))
    && (forall i: nat {:trigger SlotOf(i, s.k)} | s.head <= i < s.tail + Pow2(s.k) ::
          !s.slots[SlotOf(i, s.k)].ready)
  }

  function DrainedUpTo(s: State): nat {
    s.tail + if Draining(s.cons) then 1 else 0
  }

  ghost predicate ConsumerOk(s: State)
    requires Shape(s)
  {
    && ((s.cons.LoadedTail? || s.cons.Spinning? || Draining(s.cons)) ==> s.cons.t == s.tail && s.cons.count < s.batch)
    && ((s.cons.Spinning? || Draining(s.cons)) ==> s.tail < s.head)
    && (s.cons.Looping? ==> s.cons.count <= s.batch)
    && DrainedUpTo(s) <= s.head
    && |s.popped| == DrainedUpTo(s)
    && forall i {:trigger s.popped[i]} | 0 <= i < |s.popped| :: s.popped[i] == s.log[i].msg
  }

  ghost predicate Signalling(s: State) {
    exists p :: p in s.prods && InFlight(s.prods[p])
  }

  /** The wake-up protocol: someone will signal, or a signal is pending, or the last batch was full. */
  ghost predicate WakeOk(s: State) {
    (s.cons.Waiting? || s.cons.Stopped?) && s.tail < s.head ==>
      s.token || s.cons.full || Signalling(s)
  }

  /** The messages a producer has claimed an index for, in index order. */
  function ClaimsOf(log: seq<Claim>, p: Pid): seq<Msg> {
    if log == [] then []
    else ClaimsOf(log[..|log| - 1], p) + if log[|log| - 1].pid == p then [log[|log| - 1].msg] else []
  }

  ghost predicate OrderOk(log: seq<Claim>, accepted: map<Pid, seq<Msg>>) {
    forall p: Pid {:trigger AcceptedBy(accepted, p)} :: AcceptedBy(accepted, p) == ClaimsOf(log, p)
  }

  ghost predicate Inv(s: State) {
    Shape(s) && ProducersOk(s) && SlotsOk(s) && ConsumerOk(s) && WakeOk(s) && OrderOk(s.log, s.accepted)
  }

  lemma InitEstablishes(s: State)
    requires Init(s)
    ensures Inv(s)
  {
  }

  lemma BeginPreserves(s: State, p: Pid, m: Msg)
    requires Inv(s) && p !in s.prods
    ensures Inv(Begin(s, p, m))
  {
    var s' := Begin(s, p, m);
    KeepSignalling(s, s', p);
    KeepSlots(s, s', p);
  }

  lemma LoadHeadPreserves(s: State, p: Pid)
    requires Inv(s) && At(s, p) && s.prods[p].Starting?
    ensures Inv(LoadHead(s, p))
  {
    var s' := LoadHead(s, p);
    KeepSignalling(s, s', p);
    KeepSlots(s, s', p);
  }

  lemma LoadTailPreserves(s: State, p: Pid)
    requires Inv(s) && At(s, p) && s.prods[p].LoadedHead?
    ensures Inv(LoadTail(s, p))
  {
    var s' := LoadTail(s, p);
    KeepSignalling(s, s', p);
    KeepSlots(s, s', p);
  }

  lemma SignalPreserves(s: State, p: Pid)
    requires Inv(s) && At(s, p) && s.prods[p].Published?
    ensures Inv(Signal(s, p))
  {
    KeepSlots(s, Signal(s, p), p);
  }

  /** A step of one producer that was not in flight leaves every other one in flight. */
  lemma KeepSignalling(s: State, s': State, p: Pid)
    requires p in s.prods ==> !InFlight(s.prods[p])
    requires forall q :: q in s.prods && q != p ==> q in s'.prods && s'.prods[q] == s.prods[q]
    ensures Signalling(s) ==> Signalling(s')
  {
    if Signalling(s) {
      var q :| q in s.prods && InFlight(s.prods[q]);
      assert q in s'.prods && InFlight(s'.prods[q]);
    }
  }

  /** A step of Push that changes neither indices, slots nor ownership keeps the slot invariant. */
  lemma KeepSlots(s: State, s': State, p: Pid)
    requires Shape(s) && SlotsOk(s)
    requires s' == s.(prods := s'.prods, token := s'.token)
    requires p in s.prods ==> !Holds(s.prods[p])
    requires p in s'.prods ==> !Holds(s'.prods[p])
    requires forall q :: q != p ==> (q in s'.prods <==> q in s.prods)
    requires forall q :: q != p && q in s.prods ==> s'.prods[q] == s.prods[q]
    ensures SlotsOk(s')
  {
    forall i: nat | s.tail <= i < s.head
      ensures if Owns(s', s'.log[i].pid, i) then !(i == s'.tail && Draining(s'.cons)) else Filled(s', i)
    {
      assert Owns(s', s'.log[i].pid, i) == Owns(s, s.log[i].pid, i);
      assert Filled(s', i) == Filled(s, i);
    }
  }

  /** A stale head never passes the compare-and-swap, so a claim always finds a free slot. */
  lemma CasHasRoom(s: State, p: Pid)
    requires Inv(s) && At(s, p) && s.prods[p].Loaded? && s.head == s.prods[p].h
    ensures s.head < s.tail + Pow2(s.k)
    ensures !s.slots[SlotOf(s.head, s.k)].ready
  {
    assert s.prods[p].t <= s.tail <= s.head;
  }

  lemma CasKeepsSlots(s: State, p: Pid)
    requires Inv(s) && At(s, p) && s.prods[p].Loaded? && s.head == s.prods[p].h
    ensures SlotsOk(Cas(s, p))
  {
    var s' := Cas(s, p);
    CasHasRoom(s, p);
    forall i: nat | s'.tail <= i < s'.head
      ensures if Owns(s', s'.log[i].pid, i) then !(i == s'.tail && Draining(s'.cons)) else Filled(s', i)
    {
      if i < s.head {
        assert s'.log[i] == s.log[i];
        assert Owns(s', s'.log[i].pid, i) == Owns(s, s.log[i].pid, i);
        assert Filled(s', i) == Filled(s, i);
      }
    }
  }

  lemma CasKeepsProducers(s: State, p: Pid)
    requires Inv(s) && At(s, p) && s.prods[p].Loaded? && s.head == s.prods[p].h
    ensures Shape(Cas(s, p)) && ProducersOk(Cas(s, p))
  {
    CasHasRoom(s, p);
  }

  lemma CasKeepsRest(s: State, p: Pid)
    requires Inv(s) && At(s, p) && s.prods[p].Loaded? && s.head == s.prods[p].h
    requires Shape(Cas(s, p))
    ensures ConsumerOk(Cas(s, p)) && WakeOk(Cas(s, p)) && OrderOk(Cas(s, p).log, Cas(s, p).accepted)
  {
    var s' := Cas(s, p);
    assert s'.log[..|s'.log| - 1] == s.log;
    assert p in s'.prods && InFlight(s'.prods[p]);
    forall q: Pid ensures AcceptedBy(s'.accepted, q) == ClaimsOf(s'.log, q) {
      assert AcceptedBy(s.accepted, q) == ClaimsOf(s.log, q);
    }
  }

  lemma CasPreserves(s: State, p: Pid)
    requires Inv(s) && At(s, p) && s.prods[p].Loaded?
    ensures Inv(Cas(s, p))
  {
    if s.head == s.prods[p].h {
      CasKeepsProducers(s, p);
      CasKeepsSlots(s, p);
      CasKeepsRest(s, p);
    } else {
      KeepSignalling(s, Cas(s, p), p);
      KeepSlots(s, Cas(s, p), p);
    }
  }

  lemma WriteMsgPreserves(s: State, p: Pid)
    requires Inv(s) && At(s, p) && s.prods[p].Claimed?
    ensures Inv(WriteMsg(s, p))
  {
    var s' := WriteMsg(s, p);
    assert p in s'.prods && InFlight(s'.prods[p]);
    SlotIsPrivate(s.prods[p].h, s.tail, s.k);
  }

  lemma SetReadyPreserves(s: State, p: Pid)
    requires Inv(s) && At(s, p) && s.prods[p].Written?
    ensures Inv(SetReady(s, p))
  {
    var s' := SetReady(s, p);
    assert p in s'.prods && InFlight(s'.prods[p]);
    SlotIsPrivate(s.prods[p].h, s.tail, s.k);
  }

  lemma ControlPreserves(s: State, a: Action)
    requires Inv(s) && Enabled(s, a)
    requires a.AStop? || a.AStart? || a.ATakeToken? || a.ABatchFull? || a.AReadTail?
    ensures Inv(Do(s, a))
  {
    assert Signalling(Do(s, a)) == Signalling(s);
  }

  lemma ReadHeadPreserves(s: State)
    requires Inv(s) && s.cons.LoadedTail?
    ensures Inv(ReadHead(s))
  {
  }

  lemma TakeMsgPreserves(s: State)
    requires Inv(s) && s.cons.Spinning? && SlotReady(s, s.cons.t)
    ensures Inv(TakeMsg(s))
  {
  }

  lemma ClearMsgPreserves(s: State)
    requires Inv(s) && s.cons.Took?
    ensures Inv(ClearMsg(s))
  {
    SlotIsPrivate(s.tail, s.tail, s.k);
  }

  lemma ClearReadyPreserves(s: State)
    requires Inv(s) && s.cons.Cleared?
    ensures Inv(ClearReady(s))
  {
    SlotIsPrivate(s.tail, s.tail, s.k);
  }

  lemma StoreTailPreserves(s: State)
    requires Inv(s) && s.cons.Unready?
    ensures Inv(StoreTail(s))
  {
    SameSlotNextLap(s.tail, s.k);
    assert Filled(s, s.tail);
  }

  /** Every atomic action of every goroutine keeps the invariant. */
  lemma StepPreserves(s: State, a: Action)
    requires Inv(s) && Enabled(s, a)
    ensures Inv(Do(s, a))
  {
    match a
    case ABegin(p, m) => BeginPreserves(s, p, m);
    case ALoadHead(p) => LoadHeadPreserves(s, p);
    case ALoadTail(p) => LoadTailPreserves(s, p);
    case ACas(p) => CasPreserves(s, p);
    case AWriteMsg(p) => WriteMsgPreserves(s, p);
    case ASetReady(p) => SetReadyPreserves(s, p);
    case ASignal(p) => SignalPreserves(s, p);
    case AReadHead => ReadHeadPreserves(s);
    case ATakeMsg => TakeMsgPreserves(s);
    case AClearMsg => ClearMsgPreserves(s);
    case AClearReady => ClearReadyPreserves(s);
    case AStoreTail => StoreTailPreserves(s);
    case _ => ControlPreserves(s, a);
  }

  lemma {:induction false} RunPreserves(s: State, acts: seq<Action>)
    requires Inv(s)
    ensures Run(s, acts).Some? ==> Inv(Run(s, acts).value)
    decreases |acts|
  {
    if acts != [] && Enabled(s, acts[0]) {
      StepPreserves(s, acts[0]);
      RunPreserves(Do(s, acts[0]), acts[1..]);
    }
  }

  lemma ReachableIsInv(s0: State, acts: seq<Action>, s: State)
    requires Reachable(s0, acts, s)
    ensures Inv(s)
  {
    InitEstablishes(s0);
    RunPreserves(s0, acts);
  }

  // ---------------------------------------------------------------- what every interleaving gives

  function Msgs(log: seq<Claim>): seq<Msg> {
    seq(|log|, i requires 0 <= i < |log| => log[i].msg)
  }

  /** The k-th message popped is the k-th message claimed: nothing lost, duplicated or reordered. */
  lemma PopsFollowClaims(s0: State, acts: seq<Action>, s: State)
    requires Reachable(s0, acts, s)
    ensures s.tail <= s.head <= s.tail + Pow2(s.k)
    ensures s.popped <= Msgs(s.log)
    ensures s.tail <= |s.popped| <= s.tail + 1
  {
    ReachableIsInv(s0, acts, s);
  }

  lemma {:induction false} ClaimsPrefix(log: seq<Claim>, n: nat, p: Pid)
    requires n <= |log|
    ensures ClaimsOf(log[..n], p) <= ClaimsOf(log, p)
  {
    if n < |log| {
      ClaimsPrefix(log[..|log| - 1], n, p);
      assert log[..|log| - 1][..n] == log[..n];
    } else {
      assert log[..n] == log;
    }
  }

  /** What the writer has popped of one producer's messages is a prefix of what that producer got accepted. */
  lemma PerProducerOrder(s0: State, acts: seq<Action>, s: State, p: Pid)
    requires Reachable(s0, acts, s)
    ensures |s.popped| <= |s.log|
    ensures ClaimsOf(s.log[..|s.popped|], p) <= AcceptedBy(s.accepted, p)
  {
    ReachableIsInv(s0, acts, s);
    assert AcceptedBy(s.accepted, p) == ClaimsOf(s.log, p);
    ClaimsPrefix(s.log, |s.popped|, p);
  }

  /** Each claimed index has one owner or holds its message, published once; every other slot is not ready. */
  lemma OwnedOrPublished(s0: State, acts: seq<Action>, s: State, i: nat)
    requires Reachable(s0, acts, s) && s.tail <= i < s.tail + Pow2(s.k)
    ensures |s.log| == s.head && |s.slots| == Pow2(s.k)
    ensures i >= s.head ==> !s.slots[SlotOf(i, s.k)].ready && forall p :: !Owns(s, p, i)
    ensures i < s.head ==>
              || (exists p :: Owns(s, p, i) && s.log[i].pid == p && (forall q :: Owns(s, q, i) ==> q == p)
                              && !s.slots[SlotOf(i, s.k)].ready)
              || ((forall p :: !Owns(s, p, i)) && s.slots[SlotOf(i, s.k)] == Slot(Some(s.log[i].msg), true))
              || ((forall p :: !Owns(s, p, i)) && i == s.tail && (s.cons.Cleared? || s.cons.Unready?))
  {
    ReachableIsInv(s0, acts, s);
    assert forall p :: Owns(s, p, i) ==> s.tail <= i < s.head && s.log[i].pid == p;
    if i < s.head {
      assert Owns(s, s.log[i].pid, i) || Filled(s, i);
    }
  }

  /** The plain (non-atomic) field `slot.msg` is never touched by two goroutines at once. */
  lemma NoSlotRace(s0: State, acts: seq<Action>, s: State, p: Pid, q: Pid)
    requires Reachable(s0, acts, s)
    requires p in s.prods && s.prods[p].Claimed?
    ensures |s.slots| == Pow2(s.k)
    ensures q in s.prods && Holds(s.prods[q]) && q != p ==>
              SlotOf(s.prods[q].h, s.k) != SlotOf(s.prods[p].h, s.k)
    ensures Draining(s.cons) ==> SlotOf(s.cons.t, s.k) != SlotOf(s.prods[p].h, s.k)
    ensures s.cons.Spinning? && SlotReady(s, s.cons.t) ==> SlotOf(s.cons.t, s.k) != SlotOf(s.prods[p].h, s.k)
  {
    ReachableIsInv(s0, acts, s);
    SlotIsPrivate(s.prods[p].h, s.tail, s.k);
    assert Owns(s, s.log[s.prods[p].h].pid, s.prods[p].h);
  }

  /** The spin on `ready` waits for a producer that has claimed exactly this index and still has to publish it. */
  lemma SpinHasAPublisher(s0: State, acts: seq<Action>, s: State)
    requires Reachable(s0, acts, s) && s.cons.Spinning?
    ensures |s.slots| == Pow2(s.k)
    ensures SlotReady(s, s.cons.t) || exists p :: Owns(s, p, s.cons.t)
  {
    ReachableIsInv(s0, acts, s);
    assert Owns(s, s.log[s.tail].pid, s.tail) || Filled(s, s.tail);
  }

  /** A batch under way has popped what it counts; a full one has popped all it could hold. */
  predicate CountsOk(s: State) {
    if s.cons.Waiting? || s.cons.Stopped? then s.cons.full ==> s.batch <= s.tail
    else s.cons.count <= s.tail && s.cons.count <= s.batch
  }

  lemma StepKeepsCounts(s: State, a: Action)
    requires Inv(s) && CountsOk(s) && Enabled(s, a)
    ensures CountsOk(Do(s, a))
  {
    hide ProducersOk, SlotsOk, WakeOk, OrderOk;
  }

  lemma {:induction false} RunKeepsCounts(s: State, acts: seq<Action>)
    requires Inv(s) && CountsOk(s)
    ensures Run(s, acts).Some? ==> CountsOk(Run(s, acts).value)
    decreases |acts|
  {
    hide Inv, CountsOk, Do, Enabled;
    if acts != [] && Enabled(s, acts[0]) {
      StepPreserves(s, acts[0]);
      StepKeepsCounts(s, acts[0]);
      RunKeepsCounts(Do(s, acts[0]), acts[1..]);
    }
  }

  /**
   * No lost wake-up, unless the last batch was cut off at its maximum size, when that many messages have
   * been popped.
   */
  lemma NoLostWakeup(s0: State, acts: seq<Action>, s: State)
    requires Reachable(s0, acts, s) && s.cons.Waiting? && s.tail < s.head
    ensures s.token || (exists p :: p in s.prods && InFlight(s.prods[p])) || (s.cons.full && s.batch <= s.tail)
  {
    InitEstablishes(s0);
    ReachableIsInv(s0, acts, s);
    RunKeepsCounts(s0, acts);
  }

  // ---------------------------------------------------------------- what the code does not give

  /** Push answers false exactly when the ring is full, or when the tail has overtaken the head it loaded. */
  lemma RejectsExactly(s0: State, acts: seq<Action>, s: State, p: Pid)
    requires Reachable(s0, acts, s) && p in s.prods && s.prods[p].LoadedHead?
    ensures At(s, p)
    ensures p !in LoadTail(s, p).prods <==>
              || s.head == s.tail + Pow2(s.k) == s.prods[p].h
              || s.prods[p].h < s.tail <= s.prods[p].h + 0x1_0000_0000_0000_0000 - Pow2(s.k)
  {
    ReachableIsInv(s0, acts, s);
  }

  lemma {:induction false} Extend(s0: State, acts: seq<Action>, s: State, a: Action)
    requires Run(s0, acts) == Some(s) && Enabled(s, a)
    ensures Run(s0, acts + [a]) == Some(Do(s, a))
    decreases |acts|
  {
    if acts == [] {
      assert Run(Do(s, a), []) == Some(Do(s, a));
      assert (acts + [a])[1..] == [];
    } else {
      Extend(Do(s0, acts[0]), acts[1..], s, a);
      assert (acts + [a])[1..] == acts[1..] + [a];
    }
  }

  function Empty(k: nat, batch: nat): State {
    State(k, batch, 0, 0, seq(Pow2(k), _ => Slot(None, false)), false, map[], Stopped(false), [], [], map[])
  }

  lemma Then(s0: State, acts: seq<Action>, s: State, a: Action) returns (acts': seq<Action>)
    requires Run(s0, acts) == Some(s) && Enabled(s, a)
    ensures Run(s0, acts') == Some(Do(s, a))
  {
    Extend(s0, acts, s, a);
    acts' := acts + [a];
  }

  function Pushed(s: State, p: Pid, m: Msg): State
    requires |s.slots| == Pow2(s.k)
  {
    s.(head := s.head + 1, slots := s.slots[SlotOf(s.head, s.k) := Slot(Some(m), true)], token := true,
       log := s.log + [Claim(p, m)], accepted := s.accepted[p := AcceptedBy(s.accepted, p) + [m]])
  }

  lemma LoadAlone(s0: State, acts: seq<Action>, s: State, p: Pid, m: Msg) returns (acts': seq<Action>)
    requires Run(s0, acts) == Some(s) && Shape(s) && p !in s.prods && s.head < s.tail + Pow2(s.k)
    ensures Run(s0, acts') == Some(s.(prods := s.prods[p := Loaded(m, s.head, s.tail)]))
  {
    acts' := Then(s0, acts, s, ABegin(p, m));
    var s1 := Begin(s, p, m);
    acts' := Then(s0, acts', s1, ALoadHead(p));
    var s2 := LoadHead(s1, p);
    acts' := Then(s0, acts', s2, ALoadTail(p));
    hide Run;
    assert LoadTail(s2, p).prods == s.prods[p := Loaded(m, s.head, s.tail)];
  }

  lemma ClaimAlone(s0: State, acts: seq<Action>, s: State, p: Pid, m: Msg) returns (acts': seq<Action>, s': State)
    requires Run(s0, acts) == Some(s) && Shape(s) && p !in s.prods && s.head < s.tail + Pow2(s.k)
    ensures Run(s0, acts') == Some(s')
    ensures s' == Pushed(s, p, m).(slots := s.slots, token := s.token, prods := s.prods[p := Claimed(m, s.head)])
  {
    acts' := LoadAlone(s0, acts, s, p, m);
    var s3 := s.(prods := s.prods[p := Loaded(m, s.head, s.tail)]);
    acts' := Then(s0, acts', s3, ACas(p));
    s' := Cas(s3, p);
    hide Run;
    assert s3.prods[p := Claimed(m, s.head)] == s.prods[p := Claimed(m, s.head)];
  }

  /** A Push that runs without interference while there is room takes effect as one step. */
  lemma PushAlone(s0: State, acts: seq<Action>, s: State, p: Pid, m: Msg) returns (acts': seq<Action>)
    requires Run(s0, acts) == Some(s) && Shape(s) && p !in s.prods && s.head < s.tail + Pow2(s.k)
    ensures Run(s0, acts') == Some(Pushed(s, p, m))
  {
    var s4;
    acts', s4 := ClaimAlone(s0, acts, s, p, m);
    acts' := Then(s0, acts', s4, AWriteMsg(p));
    var s5 := WriteMsg(s4, p);
    acts' := Then(s0, acts', s5, ASetReady(p));
    var s6 := SetReady(s5, p);
    acts' := Then(s0, acts', s6, ASignal(p));
    assert Signal(s6, p).prods == s.prods;
    assert Signal(s6, p).slots == Pushed(s, p, m).slots;
  }

  function Popped(s: State): State
    requires |s.slots| == Pow2(s.k) && s.cons.Looping? && SlotReady(s, s.tail)
  {
    var x := SlotOf(s.tail, s.k);
    s.(tail := s.tail + 1, slots := s.slots[x := Slot(None, false)], cons := Looping(s.cons.count + 1),
       popped := s.popped + [s.slots[x].msg.value])
  }

  lemma TakeAlone(s0: State, acts: seq<Action>, s: State) returns (acts': seq<Action>, s': State)
    requires Run(s0, acts) == Some(s) && Shape(s) && s.cons.Looping? && s.cons.count < s.batch
    requires s.tail < s.head && SlotReady(s, s.tail)
    ensures Run(s0, acts') == Some(s')
    ensures s' == Popped(s).(tail := s.tail, slots := s.slots, cons := Took(s.cons.count, s.tail))
  {
    acts' := Then(s0, acts, s, AReadTail);
    var s1 := s.(cons := LoadedTail(s.cons.count, s.tail));
    acts' := Then(s0, acts', s1, AReadHead);
    var s2 := ReadHead(s1);
    acts' := Then(s0, acts', s2, ATakeMsg);
    s' := TakeMsg(s2);
  }

  lemma ReleaseAlone(s0: State, acts: seq<Action>, s: State) returns (acts': seq<Action>)
    requires Run(s0, acts) == Some(s) && Shape(s) && s.cons.Cleared?
    requires s.slots[SlotOf(s.cons.t, s.k)] == Slot(None, true)
    ensures Run(s0, acts') == Some(s.(tail := s.cons.t + 1, cons := Looping(s.cons.count + 1),
                                      slots := s.slots[SlotOf(s.cons.t, s.k) := Slot(None, false)]))
  {
    acts' := Then(s0, acts, s, AClearReady);
    acts' := Then(s0, acts', ClearReady(s), AStoreTail);
  }

  /** One round of the batch loop that runs without interference takes effect as one step. */
  lemma PopAlone(s0: State, acts: seq<Action>, s: State) returns (acts': seq<Action>)
    requires Run(s0, acts) == Some(s) && Shape(s) && s.cons.Looping? && s.cons.count < s.batch
    requires s.tail < s.head && SlotReady(s, s.tail)
    ensures Run(s0, acts') == Some(Popped(s))
  {
    var s3;
    acts', s3 := TakeAlone(s0, acts, s);
    acts' := Then(s0, acts', s3, AClearMsg);
    var s4 := ClearMsg(s3);
    acts' := ReleaseAlone(s0, acts', s4);
    hide Run, Enabled;
    assert s4.slots[SlotOf(s.tail, s.k) := Slot(None, false)] == Popped(s).slots;
  }

  /** The writer starts, takes the token and enters the batch loop. */
  lemma Wake(s0: State, acts: seq<Action>, s: State) returns (acts': seq<Action>)
    requires Run(s0, acts) == Some(s) && Shape(s) && s.cons.Stopped? && s.token
    ensures Run(s0, acts') == Some(s.(cons := Looping(0), token := false))
  {
    acts' := Then(s0, acts, s, AStart);
    acts' := Then(s0, acts', s.(cons := Waiting(s.cons.full)), ATakeToken);
  }

  /**
   * For every capacity below the counter range and every batch size, a run in which Push reports a
   * full queue although the queue is empty: producer 0 stops after loading the head, and producer 1's
   * message goes through meanwhile.
   */
  lemma SpuriousFull(k: nat, batch: nat) returns (acts: seq<Action>, s: State)
    requires Pow2(k) < WRAP && 0 < batch
    ensures Reachable(Empty(k, batch), acts, s)
    ensures s.head == s.tail && At(s, 0) && s.prods[0].LoadedHead?
    ensures 0 !in LoadTail(s, 0).prods && 0 !in LoadTail(s, 0).accepted
  {
    var s0 := Empty(k, batch);
    acts := Then(s0, [], s0, ABegin(0, 5));
    acts := Then(s0, acts, Begin(s0, 0, 5), ALoadHead(0));
    var s1 := LoadHead(Begin(s0, 0, 5), 0);
    acts := PushAlone(s0, acts, s1, 1, 6);
    var s2 := Pushed(s1, 1, 6);
    acts := Wake(s0, acts, s2);
    var s3 := s2.(cons := Looping(0), token := false);
    acts := PopAlone(s0, acts, s3);
    s := Popped(s3);
  }

  // ---------------------------------------------------------------- exactly when no message is stranded

  predicate InBatch(c: Consumer) { !c.Stopped? && !c.Waiting? }

  /**
   * With a batch that covers the ring: during a batch, whatever is claimed beyond one lap from where the
   * batch began has a token or a producer that will signal; between batches, so has anything claimed.
   */
  ghost predicate WakeFits(s: State) {
    Pow2(s.k) <= s.batch ==>
      s.token || Signalling(s) ||
      (if InBatch(s.cons) then s.head + s.cons.count <= s.tail + Pow2(s.k) else s.head <= s.tail)
  }

  lemma ProducerKeepsFits(s: State, a: Action, p: Pid)
    requires Inv(s) && WakeFits(s) && Enabled(s, a)
    requires a in {ALoadHead(p), ALoadTail(p), ACas(p), AWriteMsg(p), ASetReady(p), ASignal(p)}
             || (a.ABegin? && a.p == p)
    ensures WakeFits(Do(s, a))
  {
    hide ProducersOk, SlotsOk, ConsumerOk, WakeOk, OrderOk;
    var s' := Do(s, a);
    if Signalling(s) {
      var q :| q in s.prods && InFlight(s.prods[q]);
      if q != p || a.AWriteMsg? || a.ASetReady? {
        assert q in s'.prods && InFlight(s'.prods[q]);
      }
    }
    if a.ACas? && s.head == s.prods[p].h {
      assert p in s'.prods && InFlight(s'.prods[p]);
    }
  }

  lemma ConsumerKeepsFits(s: State, a: Action)
    requires Inv(s) && WakeFits(s) && Enabled(s, a)
    requires a in {AStop, AStart, ATakeToken, ABatchFull, AReadTail, AReadHead, ATakeMsg, AClearMsg, AClearReady,
               AStoreTail}
    ensures WakeFits(Do(s, a))
  {
    hide ProducersOk, SlotsOk, WakeOk, OrderOk;
    assert Signalling(Do(s, a)) == Signalling(s);
  }

  lemma StepKeepsFits(s: State, a: Action)
    requires Inv(s) && WakeFits(s) && Enabled(s, a)
    ensures WakeFits(Do(s, a))
  {
    hide Inv, WakeFits, Do, Enabled;
    match a
    case ABegin(p, _) => ProducerKeepsFits(s, a, p);
    case ALoadHead(p) => ProducerKeepsFits(s, a, p);
    case ALoadTail(p) => ProducerKeepsFits(s, a, p);
    case ACas(p) => ProducerKeepsFits(s, a, p);
    case AWriteMsg(p) => ProducerKeepsFits(s, a, p);
    case ASetReady(p) => ProducerKeepsFits(s, a, p);
    case ASignal(p) => ProducerKeepsFits(s, a, p);
    case _ => ConsumerKeepsFits(s, a);
  }

  lemma {:induction false} RunKeepsFits(s: State, acts: seq<Action>)
    requires Inv(s) && WakeFits(s)
    ensures Run(s, acts).Some? ==> WakeFits(Run(s, acts).value)
    decreases |acts|
  {
    hide Inv, WakeFits, Do, Enabled;
    if acts != [] && Enabled(s, acts[0]) {
      StepPreserves(s, acts[0]);
      StepKeepsFits(s, acts[0]);
      RunKeepsFits(Do(s, acts[0]), acts[1..]);
    }
  }

  lemma {:induction false} SameSizes(s: State, acts: seq<Action>)
    ensures Run(s, acts).Some? ==> Run(s, acts).value.k == s.k && Run(s, acts).value.batch == s.batch
    decreases |acts|
  {
    if acts != [] && Enabled(s, acts[0]) {
      SameSizes(Do(s, acts[0]), acts[1..]);
    }
  }

  /** One producer pushes `n` messages into the empty ring. */
  lemma {:induction false} PushMany(k: nat, batch: nat, n: nat) returns (acts: seq<Action>, s: State)
    requires 0 < batch && n <= Pow2(k)
    ensures Reachable(Empty(k, batch), acts, s)
    ensures s.k == k && s.batch == batch && s.tail == 0 && s.head == n && s.prods == map[] && s.cons == Stopped(false)
    ensures n > 0 ==> s.token
  {
    var s0 := Empty(k, batch);
    if n == 0 {
      acts, s := [], s0;
    } else {
      acts, s := PushMany(k, batch, n - 1);
      ReachableIsInv(s0, acts, s);
      hide Run, ProducersOk, SlotsOk, ConsumerOk, OrderOk, Init;
      acts := PushAlone(s0, acts, s, 0, 5);
      s := Pushed(s, 0, 5);
    }
  }

  /** The writer pops `n` messages of which it has the room and the queue the number. */
  lemma {:induction false} PopMany(s0: State, acts: seq<Action>, s: State, n: nat)
      returns (acts': seq<Action>, s': State)
    requires Reachable(s0, acts, s) && s.cons.Looping? && s.prods == map[]
    requires s.cons.count + n <= s.batch && s.tail + n <= s.head
    ensures Reachable(s0, acts', s')
    ensures s' == s.(tail := s.tail + n, cons := Looping(s.cons.count + n), slots := s'.slots, popped := s'.popped)
    decreases n
  {
    acts', s' := acts, s;
    if n > 0 {
      ReachableIsInv(s0, acts, s);
      assert Filled(s, s.tail);
      hide Run, Inv, ProducersOk, SlotsOk, ConsumerOk, OrderOk, Init;
      acts' := PopAlone(s0, acts, s);
      s' := Popped(s);
      acts', s' := PopMany(s0, acts', s', n - 1);
    }
  }

  /**
   * For every batch smaller than the ring, a run that strands a message: the signals of one message
   * more than the batch holds collapse into one token, the batch is full, and the writer waits with a
   * message queued and nobody left to signal.
   */
  lemma StrandedMessage(k: nat, batch: nat) returns (acts: seq<Action>, s: State)
    requires 0 < batch < Pow2(k)
    ensures Reachable(Empty(k, batch), acts, s)
    ensures s.cons.Waiting? && !s.token && s.head == s.tail + 1 && s.prods == map[]
  {
    var s0 := Empty(k, batch);
    var s1;
    acts, s1 := PushMany(k, batch, batch + 1);
    ReachableIsInv(s0, acts, s1);
    hide Run, ProducersOk, SlotsOk, ConsumerOk, OrderOk, Init;
    acts := Wake(s0, acts, s1);
    var s2 := s1.(cons := Looping(0), token := false);
    var s3;
    acts, s3 := PopMany(s0, acts, s2, batch);
    ReachableIsInv(s0, acts, s3);
    acts := Then(s0, acts, s3, ABatchFull);
    s := s3.(cons := Waiting(true));
  }

  /** Nobody waits in vain: a waiting writer with messages claimed has a token or a producer that will signal. */
  ghost predicate NeverStranded(k: nat, batch: nat) {
    forall acts, s :: Reachable(Empty(k, batch), acts, s) && s.cons.Waiting? && s.tail < s.head ==>
      s.token || Signalling(s)
  }

  /** No message is ever stranded exactly when a batch can hold the whole ring. */
  lemma NeverStrandedExactly(k: nat, batch: nat)
    requires 0 < batch
    ensures NeverStranded(k, batch) <==> Pow2(k) <= batch
  {
    var s0 := Empty(k, batch);
    if Pow2(k) <= batch {
      forall acts, s | Reachable(s0, acts, s) && s.cons.Waiting? && s.tail < s.head
        ensures s.token || Signalling(s)
      {
        InitEstablishes(s0);
        RunKeepsFits(s0, acts);
        SameSizes(s0, acts);
      }
    } else {
      var acts, s := StrandedMessage(k, batch);
      assert !Signalling(s);
    }
  }
}
