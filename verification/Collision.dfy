/**
 * Two nodes that connect to each other at the same time: the product of two machines of
 * `PeerMachine` over two reliable, ordered transports, one dialled by each. Each node dials at most
 * once, no timer runs out, and a dial that fails shows the other side nothing.
 */
module Collision {
  import opened Bytes
  import opened Names
  import opened PeerMachine

  const MINE: Conn := 0
  const THEIRS: Conn := 1

  /** How far a node's own dial has come: `Connected` and `Refused` wait for the machine to be told. */
  datatype Dial = Idle | Dialling | Connected | Refused | Settled

  datatype Request = NotSent | InFlight | Delivered

  /** What the accepting side writes on a transport. The end of it stays at the head. */
  datatype Back = CeaOk | CeaErr | Eof

  /** One node and the transport it dials. */
  datatype Half = Half(
    node: Node,
    dial: Dial,
    cer: Request,          // our request on our transport
    back: seq<Back>,       // what the other side answered on it and we have not read
    hung: bool,            // we closed our transport
    granted: bool,         // we answered the other side's transport with a success
    shut: bool,            // we closed or rejected the other side's transport
    won: bool)             // auxiliary: we issued Win-Election

  predicate IsOpen(h: Half) { h.node.state == IOpen || h.node.state == ROpen }

  datatype Action =
    | Begin(sendOk: bool)                  // the start event
    | DialOk | DialFails
    | Told(sendOk: bool)                   // the machine learns how the dial went
    | TakeCER(accepted: bool, sendOk: bool)
    | TakeBack(sendOk: bool)               // the read loop of our transport
    | OwnEnd(sendOk: bool)                 // the read loop finds our transport closed by ourselves
    | TheirEnd(sendOk: bool)               // the read loop of the other transport finds it closed
    | Win(sendOk: bool)

  predicate Can(me: Half, you: Half, a: Action) {
    match a
    case Begin(_) => me.dial == Idle
    case DialOk => me.dial == Dialling
    case DialFails => me.dial == Dialling
    case Told(_) => me.dial == Connected || me.dial == Refused
    case TakeCER(_, _) => you.cer == InFlight
    case TakeBack(_) => me.back != []
    case OwnEnd(_) => me.hung
    case TheirEnd(_) => me.granted && (you.hung || me.shut)
    case Win(_) => me.node.queue != []
  }

  /** What a handled event leaves on both sides. */
  function Settle(me: Half, you: Half, n: Node): (Half, Half) {
    var ended := n.fx.rejected || n.fx.closedR;
    (me.(node := n,
         dial := if n.fx.dial then Dialling else me.dial,
         cer := if n.fx.sentCER then InFlight else me.cer,
         hung := me.hung || n.fx.closedI,
         granted := me.granted || n.fx.sentCEA,
         shut := me.shut || ended,
         won := me.won || WinElection in n.queue),
     you.(back := you.back + (if n.fx.sentCEA then [CeaOk] else []) + (if n.fx.rejected then [CeaErr] else [])
                  + if ended then [Eof] else []))
  }

  function React(me: Half, you: Half, ev: Event, sendOk: bool): (Half, Half) {
    Settle(me, you, Handle(me.node, ev, sendOk))
  }

  function BackEvent(b: Back, peer: Text): Event {
    match b
    case CeaOk => IRcvCEA(Some(peer))
    case CeaErr => IRcvCEA(None)
    case Eof => IPeerDisc
  }

  function DoCollide(me: Half, you: Half, a: Action): (Half, Half)
    requires Can(me, you, a)
  {
    match a
    case Begin(sendOk) => React(me, you, Start, sendOk)
    case DialOk => (me.(node := me.node.(iConn := Some(MINE)), dial := Connected), you)
    case DialFails => (me.(dial := Refused), you)
    case Told(sendOk) => React(me.(dial := Settled), you, if me.dial == Connected then IRcvConnAck else IRcvConnNack,
                               sendOk)
    case TakeCER(accepted, sendOk) =>
      React(me, you.(cer := Delivered), RConnCER(THEIRS, Some(you.node.local), accepted), sendOk)
    case TakeBack(sendOk) =>
      React(if me.back[0] == Eof then me else me.(back := me.back[1..]), you, BackEvent(me.back[0], you.node.local),
            sendOk)
    case OwnEnd(sendOk) => React(me, you, IPeerDisc, sendOk)
    case TheirEnd(sendOk) => React(me, you, RPeerDisc, sendOk)
    case Win(sendOk) => React(me.(node := me.node.(queue := me.node.queue[1..])), you, me.node.queue[0], sendOk)
  }

  datatype World = World(a: Half, b: Half)

  /** A step of the first node (`first`) or of the second. */
  datatype Step = Step(first: bool, action: Action)

  predicate CanStep(w: World, s: Step) { if s.first then Can(w.a, w.b, s.action) else Can(w.b, w.a, s.action) }

  function DoStep(w: World, s: Step): World
    requires CanStep(w, s)
  {
    if s.first then var (a, b) := DoCollide(w.a, w.b, s.action); World(a, b)
    else var (b, a) := DoCollide(w.b, w.a, s.action); World(a, b)
  }

  function Fresh(local: Text, persistent: bool): Half {
    Half(Initial(local, persistent), Idle, NotSent, [], false, false, false, false)
  }

  ghost predicate RunWorld(w: World, steps: seq<Step>, to: World)
    decreases |steps|
  {
    if steps == [] then to == w
    else CanStep(w, steps[0]) && RunWorld(DoStep(w, steps[0]), steps[1..], to)
  }

  // ---------------------------------------------------------------- what every step keeps

  /** How the state, the dial and the own transport of a node go together. */
  predicate OwnSide(me: Half) {
    && me.node.state != Suspect && me.node.state != Closing
    && (me.node.state == WaitConnAck || me.node.state == WaitConnAckElect
        <==> me.dial in {Dialling, Connected, Refused})
    && (me.dial != Settled ==> me.cer == NotSent && !me.hung)
    && (me.node.iConn.Some? <==> me.dial == Connected || me.node.state in {WaitICEA, WaitReturns, IOpen})
    && (me.node.state in {WaitICEA, WaitReturns, IOpen} ==> me.dial == Settled && me.cer != NotSent && !me.hung)
    && (me.hung ==> me.node.state in {ROpen, Closed, Zombie})
    && (me.cer != NotSent && me.node.iConn == None ==> me.hung)
  }

  /** What a node has done with the other's transport. */
  predicate OtherSide(me: Half, you: Half) {
    && (me.node.rConn.Some? || me.granted || me.shut ==> you.cer == Delivered)
    && (me.node.state in {WaitConnAckElect, WaitReturns} ==>
          me.node.rConn.Some? && !me.granted && !me.shut && me.node.remote == you.node.local)
    && (me.node.state == ROpen ==> me.granted && !me.shut && me.node.rConn.Some? && you.cer == Delivered)
    && (me.granted ==> me.node.state == ROpen || you.hung)
    && (you.cer == Delivered ==> me.granted || me.shut || me.node.state in {WaitConnAckElect, WaitReturns, Zombie})
  }

  /** A success comes first if at all, and anything else means the transport was closed. */
  predicate WellFormed(back: seq<Back>, granted: bool, shut: bool) {
    && (forall i :: 0 <= i < |back| && back[i] != CeaOk ==> shut)
    && (forall i :: 0 < i < |back| ==> back[i] != CeaOk)
    && (!granted && !shut ==> back == [])
    && (SuccessFirst(back) ==> granted)
  }

  predicate SuccessFirst(back: seq<Back>) { back != [] && back[0] == CeaOk }

  /** What is on the way back to a node. */
  predicate Channel(me: Half, you: Half) {
    && WellFormed(me.back, you.granted, you.shut)
    && (me.node.state in {WaitICEA, WaitReturns} && you.granted ==> SuccessFirst(me.back))
    && (me.node.state == IOpen ==> you.granted)
  }

  predicate OnlyWins(q: seq<Event>) { forall i :: 0 <= i < |q| ==> q[i] == WinElection }

  predicate Greater(mine: Text, theirs: Text) { Less(Lower(theirs), Lower(mine)) }

  /** Why a node closed its own transport, and who can have won. */
  predicate Reasons(me: Half, you: Half) {
    && (me.hung ==> you.shut || me.won || me.cer == NotSent)
    && (me.won ==> Greater(me.node.local, you.node.local))
    && OnlyWins(me.node.queue) && (me.node.queue != [] ==> me.won)
  }

  predicate View(me: Half, you: Half) { OwnSide(me) && OtherSide(me, you) && Channel(me, you) && Reasons(me, you) }

  predicate Inv(w: World) { View(w.a, w.b) && View(w.b, w.a) }

  predicate Pair(me: Half, you: Half) { View(me, you) && View(you, me) }

  // ---------------------------------------------------------------- pieces

  lemma NoWinQueued(q: seq<Event>)
    ensures WinElection in q ==> q != []
  {
  }

  /** An event that does nothing keeps everything. */
  lemma Silence(me: Half, you: Half, ev: Event, sendOk: bool)
    requires Pair(me, you) && Handle(me.node, ev, sendOk) == me.node.(fx := SILENT)
    ensures var r := React(me, you, ev, sendOk); Pair(r.0, r.1)
  {
    SilentSettle(me, you);
    EffectsDoNotMatter(me, you);
    hide View, Settle, Handle;
  }

  lemma SilentSettle(me: Half, you: Half)
    requires Reasons(me, you)
    ensures Settle(me, you, me.node.(fx := SILENT)) == (me.(node := me.node.(fx := SILENT)), you)
  {
    hide Less;
    assert you.back + [] + [] + [] == you.back;
  }

  lemma EffectsDoNotMatter(me: Half, you: Half)
    requires Pair(me, you)
    ensures Pair(me.(node := me.node.(fx := SILENT)), you)
  {
    hide WellFormed, OnlyWins, Less;
  }

  lemma Granting(back: seq<Back>, granted: bool, shut: bool)
    requires WellFormed(back, granted, shut) && !granted && !shut
    ensures WellFormed(back + [CeaOk] + [] + [], true, false) && SuccessFirst(back + [CeaOk] + [] + [])
  {
  }

  lemma Ending(back: seq<Back>, granted: bool, shut: bool, err: seq<Back>)
    requires WellFormed(back, granted, shut) && (err == [] || err == [CeaErr])
    ensures WellFormed(back + [] + err + [Eof], granted, true)
    ensures SuccessFirst(back) ==> SuccessFirst(back + [] + err + [Eof])
    ensures !granted ==> !SuccessFirst(back + [] + err + [Eof])
  {
  }

  lemma Reading(back: seq<Back>, granted: bool, shut: bool)
    requires WellFormed(back, granted, shut) && back != []
    ensures WellFormed(back[1..], granted, shut) && !SuccessFirst(back[1..])
    ensures back[0] != CeaOk ==> shut
  {
  }

  /** An election against the other node's identity is won by the greater one alone. */
  lemma Electing(n: Node, me: Half, you: Half)
    requires n.local == me.node.local && n.remote == you.node.local && n.queue == me.node.queue
    requires OnlyWins(n.queue) && (n.queue != [] ==> me.won) && (me.won ==> Greater(me.node.local, you.node.local))
    ensures OnlyWins(Elect(n).queue) && Elect(n) == n.(queue := Elect(n).queue)
    ensures WinElection in Elect(n).queue ==> Greater(me.node.local, you.node.local)
    ensures Elect(n).queue != [] ==> WinElection in Elect(n).queue
  {
    hide Less;
    var q := Elect(n).queue;
    if q != [] {
      assert q[0] == WinElection;
    }
  }

  // ---------------------------------------------------------------- what each event does

  lemma Nothing(back: seq<Back>)
    ensures back + [] + [] + [] == back
  {
  }

  lemma StartKeeps(me: Half, you: Half, sendOk: bool)
    requires Pair(me, you) && me.dial == Idle && me.node.state == Closed
    ensures var r := React(me, you, Start, sendOk); Pair(r.0, r.1)
  {
    Nothing(you.back);
    NoWinQueued(me.node.queue);
    hide Less, WellFormed, OnlyWins, Greater;
  }

  function Told'(d: Dial): Dial { if d == Connected || d == Refused then Settled else d }

  lemma DownKeepsMineSides(me: Half, you: Half, s: PeerState, again: bool, w: Timer, cer: bool)
    requires Pair(me, you) && (s == Closed || s == Zombie)
    requires me.node.state in {WaitConnAck, WaitConnAckElect, WaitICEA, WaitReturns, IOpen, ROpen}
             && me.dial != Dialling
    requires me.node.iConn.Some? ==> you.shut || me.won || me.cer == NotSent
    requires me.node.state == ROpen ==> you.hung
    ensures var r := Settle(me.(dial := Told'(me.dial)), you, Down(me.node, s, again, w, cer));
            OwnSide(r.0) && OtherSide(r.0, r.1)
  {
    Nothing(you.back);
    hide Less, WellFormed, OnlyWins, Greater, SuccessFirst;
    NoWinQueued(me.node.queue);
  }

  lemma DownKeepsMineLinks(me: Half, you: Half, s: PeerState, again: bool, w: Timer, cer: bool)
    requires Pair(me, you) && (s == Closed || s == Zombie)
    requires me.node.state in {WaitConnAck, WaitConnAckElect, WaitICEA, WaitReturns, IOpen, ROpen}
             && me.dial != Dialling
    requires me.node.iConn.Some? ==> you.shut || me.won || me.cer == NotSent
    requires me.node.state == ROpen ==> you.hung
    ensures var r := Settle(me.(dial := Told'(me.dial)), you, Down(me.node, s, again, w, cer));
            Channel(r.0, r.1) && Reasons(r.0, r.1)
  {
    Nothing(you.back);
    hide Less, WellFormed, OnlyWins, Greater, SuccessFirst;
    NoWinQueued(me.node.queue);
  }

  /** Giving up keeps the invariant when there is a reason to close the own transport. */
  lemma DownKeepsMine(me: Half, you: Half, s: PeerState, again: bool, w: Timer, cer: bool)
    requires Pair(me, you) && (s == Closed || s == Zombie)
    requires me.node.state in {WaitConnAck, WaitConnAckElect, WaitICEA, WaitReturns, IOpen, ROpen}
             && me.dial != Dialling
    requires me.node.iConn.Some? ==> you.shut || me.won || me.cer == NotSent
    requires me.node.state == ROpen ==> you.hung
    ensures var r := Settle(me.(dial := Told'(me.dial)), you, Down(me.node, s, again, w, cer)); View(r.0, r.1)
  {
    DownKeepsMineSides(me, you, s, again, w, cer);
    DownKeepsMineLinks(me, you, s, again, w, cer);
    hide OwnSide, OtherSide, Channel, Reasons, Settle, Down, Elect;
  }

  lemma DownKeepsYoursSides(me: Half, you: Half, s: PeerState, again: bool, w: Timer, cer: bool)
    requires Pair(me, you) && (s == Closed || s == Zombie)
    requires me.node.state in {WaitConnAck, WaitConnAckElect, WaitICEA, WaitReturns, IOpen, ROpen}
             && me.dial != Dialling
    requires me.node.iConn.Some? ==> you.shut || me.won || me.cer == NotSent
    requires me.node.state == ROpen ==> you.hung
    ensures var r := Settle(me.(dial := Told'(me.dial)), you, Down(me.node, s, again, w, cer));
            OwnSide(r.1) && OtherSide(r.1, r.0)
  {
    Nothing(you.back);
    Ending(you.back, me.granted, me.shut, []);
    hide Less, WellFormed, OnlyWins, Greater, SuccessFirst;
    assert OwnSide(you);
    var r := Settle(me.(dial := Told'(me.dial)), you, Down(me.node, s, again, w, cer));
    assert r.1 == you.(back := r.1.back) && r.0.cer == me.cer && r.0.node.state == s;
  }

  lemma DownKeepsYoursLinks(me: Half, you: Half, s: PeerState, again: bool, w: Timer, cer: bool)
    requires Pair(me, you) && (s == Closed || s == Zombie)
    requires me.node.state in {WaitConnAck, WaitConnAckElect, WaitICEA, WaitReturns, IOpen, ROpen}
             && me.dial != Dialling
    requires me.node.iConn.Some? ==> you.shut || me.won || me.cer == NotSent
    requires me.node.state == ROpen ==> you.hung
    ensures var r := Settle(me.(dial := Told'(me.dial)), you, Down(me.node, s, again, w, cer));
            Channel(r.1, r.0) && Reasons(r.1, r.0)
  {
    Nothing(you.back);
    Ending(you.back, me.granted, me.shut, []);
    hide Less, WellFormed, OnlyWins, Greater, SuccessFirst;
    assert OwnSide(you);
    var r := Settle(me.(dial := Told'(me.dial)), you, Down(me.node, s, again, w, cer));
    assert r.1 == you.(back := r.1.back) && r.0.cer == me.cer && r.0.node.state == s;
  }

  lemma DownKeepsYours(me: Half, you: Half, s: PeerState, again: bool, w: Timer, cer: bool)
    requires Pair(me, you) && (s == Closed || s == Zombie)
    requires me.node.state in {WaitConnAck, WaitConnAckElect, WaitICEA, WaitReturns, IOpen, ROpen}
             && me.dial != Dialling
    requires me.node.iConn.Some? ==> you.shut || me.won || me.cer == NotSent
    requires me.node.state == ROpen ==> you.hung
    ensures var r := Settle(me.(dial := Told'(me.dial)), you, Down(me.node, s, again, w, cer)); View(r.1, r.0)
  {
    DownKeepsYoursSides(me, you, s, again, w, cer);
    DownKeepsYoursLinks(me, you, s, again, w, cer);
    hide OwnSide, OtherSide, Channel, Reasons, Settle, Down, Elect;
  }

  lemma DownKeeps(me: Half, you: Half, s: PeerState, again: bool, w: Timer, cer: bool)
    requires Pair(me, you) && (s == Closed || s == Zombie)
    requires me.node.state in {WaitConnAck, WaitConnAckElect, WaitICEA, WaitReturns, IOpen, ROpen}
             && me.dial != Dialling
    requires me.node.iConn.Some? ==> you.shut || me.won || me.cer == NotSent
    requires me.node.state == ROpen ==> you.hung
    ensures var r := Settle(me.(dial := Told'(me.dial)), you, Down(me.node, s, again, w, cer)); Pair(r.0, r.1)
  {
    DownKeepsMine(me, you, s, again, w, cer);
    DownKeepsYours(me, you, s, again, w, cer);
    hide View, Settle, Down;
  }

  /** The node after its request went out. */
  function Asked(n: Node, s: PeerState): Node {
    n.(state := s, timeout := Armed, fx := SILENT.(sentCER := true))
  }

  lemma AskedKeeps(me: Half, you: Half)
    requires Pair(me, you) && me.dial == Connected && me.node.state == WaitConnAck
    ensures var r := Settle(me.(dial := Settled), you, Asked(me.node, WaitICEA)); Pair(r.0, r.1)
  {
    Nothing(you.back);
    NoWinQueued(me.node.queue);
    hide Less, WellFormed, OnlyWins, Greater, SuccessFirst;
  }

  lemma AskedAndElectedKeepsMineSides(me: Half, you: Half)
    requires Pair(me, you) && me.dial == Connected && me.node.state == WaitConnAckElect
    ensures var r := Settle(me.(dial := Settled), you, Elect(Asked(me.node, WaitReturns)));
            OwnSide(r.0) && OtherSide(r.0, r.1)
  {
    Nothing(you.back);
    Electing(Asked(me.node, WaitReturns), me, you);
    hide Less, WellFormed, OnlyWins, Greater, SuccessFirst, Elect;
  }

  lemma AskedAndElectedKeepsMineLinks(me: Half, you: Half)
    requires Pair(me, you) && me.dial == Connected && me.node.state == WaitConnAckElect
    ensures var r := Settle(me.(dial := Settled), you, Elect(Asked(me.node, WaitReturns)));
            Channel(r.0, r.1) && Reasons(r.0, r.1)
  {
    Nothing(you.back);
    Electing(Asked(me.node, WaitReturns), me, you);
    hide Less, WellFormed, OnlyWins, Greater, SuccessFirst, Elect;
  }

  lemma AskedAndElectedKeepsMine(me: Half, you: Half)
    requires Pair(me, you) && me.dial == Connected && me.node.state == WaitConnAckElect
    ensures var r := Settle(me.(dial := Settled), you, Elect(Asked(me.node, WaitReturns))); View(r.0, r.1)
  {
    AskedAndElectedKeepsMineSides(me, you);
    AskedAndElectedKeepsMineLinks(me, you);
    hide OwnSide, OtherSide, Channel, Reasons, Settle, Down, Elect;
  }

  lemma AskedAndElectedKeepsYours(me: Half, you: Half)
    requires Pair(me, you) && me.dial == Connected && me.node.state == WaitConnAckElect
    ensures var r := Settle(me.(dial := Settled), you, Elect(Asked(me.node, WaitReturns))); View(r.1, r.0)
  {
    Nothing(you.back);
    Electing(Asked(me.node, WaitReturns), me, you);
    hide Less, WellFormed, OnlyWins, Greater, SuccessFirst, Elect;
  }

  lemma AskedAndElectedKeeps(me: Half, you: Half)
    requires Pair(me, you) && me.dial == Connected && me.node.state == WaitConnAckElect
    ensures var r := Settle(me.(dial := Settled), you, Elect(Asked(me.node, WaitReturns))); Pair(r.0, r.1)
  {
    AskedAndElectedKeepsMine(me, you);
    AskedAndElectedKeepsYours(me, you);
    hide View, Settle, Elect, Asked;
  }

  lemma AckKeeps(me: Half, you: Half, sendOk: bool)
    requires Pair(me, you) && me.dial == Connected
    ensures var r := React(me.(dial := Settled), you, IRcvConnAck, sendOk); Pair(r.0, r.1)
  {
    DownIs(me.node);
    if !sendOk {
      assert Handle(me.node, IRcvConnAck, sendOk) == Down(me.node, Closed, false, Nil, false);
      DownKeeps(me, you, Closed, false, Nil, false);
    } else if me.node.state == WaitConnAck {
      assert Handle(me.node, IRcvConnAck, sendOk) == Asked(me.node, WaitICEA);
      AskedKeeps(me, you);
    } else {
      assert Handle(me.node, IRcvConnAck, sendOk) == Elect(Asked(me.node, WaitReturns));
      AskedAndElectedKeeps(me, you);
    }
    hide Handle, View, Settle, Down;
  }

  /** The node that answered the other's request with a success and gave up its own transport. */
  function Granted(n: Node): Node {
    n.(state := ROpen, iConn := None, pendingCER := false, timeout := Nil, watchdog := Armed,
       fx := SILENT.(sentCEA := true, closedI := n.iConn.Some?))
  }

  lemma GrantedKeepsMine(me: Half, you: Half)
    requires Pair(me, you) && me.node.state in {WaitConnAckElect, WaitReturns} && me.dial in {Refused, Settled}
    requires me.node.iConn.Some? ==> you.shut || me.won
    ensures var r := Settle(me.(dial := Settled), you, Granted(me.node)); View(r.0, r.1)
  {
    hide Less, WellFormed, OnlyWins, Greater, SuccessFirst;
    NoWinQueued(me.node.queue);
  }

  lemma GrantedKeepsYours(me: Half, you: Half)
    requires Pair(me, you) && me.node.state in {WaitConnAckElect, WaitReturns} && me.dial in {Refused, Settled}
    ensures var r := Settle(me.(dial := Settled), you, Granted(me.node)); View(r.1, r.0)
  {
    Granting(you.back, me.granted, me.shut);
    hide Less, WellFormed, OnlyWins, Greater, SuccessFirst;
  }

  /** Answering the request kept, or failing to. */
  lemma AnsweredKeeps(me: Half, you: Half, sendOk: bool)
    requires Pair(me, you) && me.node.state in {WaitConnAckElect, WaitReturns} && me.dial in {Refused, Settled}
    requires me.node.iConn.Some? ==> you.shut || me.won
    ensures var n := if sendOk then Granted(me.node)
            else Down(me.node, Closed, false, me.node.watchdog, me.node.pendingCER);
            var r := Settle(me.(dial := Settled), you, n); Pair(r.0, r.1)
  {
    if sendOk {
      GrantedKeepsMine(me, you);
      GrantedKeepsYours(me, you);
    } else {
      DownKeeps(me, you, Closed, false, me.node.watchdog, me.node.pendingCER);
    }
    hide View, Settle, Down, Granted;
  }

  lemma NackKeeps(me: Half, you: Half, sendOk: bool)
    requires Pair(me, you) && me.dial == Refused
    ensures var r := React(me.(dial := Settled), you, IRcvConnNack, sendOk); Pair(r.0, r.1)
  {
    DownIs(me.node);
    var n := me.node;
    if n.state == WaitConnAck {
      var s := if n.persistent then Closed else Zombie;
      assert Handle(n, IRcvConnNack, sendOk) == Down(n, s, n.persistent, Nil, false);
      DownKeeps(me, you, s, n.persistent, Nil, false);
    } else {
      assert Handle(n, IRcvConnNack, sendOk) ==
             if sendOk then Granted(n) else Down(n, Closed, false, n.watchdog, n.pendingCER);
      AnsweredKeeps(me, you, sendOk);
    }
    hide Handle, View, Settle, Down, Granted;
  }

  // ---------------------------------------------------------------- the other node's request

  function Refusing(n: Node, r: Option<Conn>, remote: Text, rejected: bool, closedR: bool): Node {
    n.(rConn := r, remote := remote, fx := SILENT.(rejected := rejected, closedR := closedR))
  }

  lemma RefusingKeepsMine(me: Half, you: Half, r: Option<Conn>, remote: Text, rejected: bool, closedR: bool)
    requires Pair(me, you) && you.cer == InFlight && me.node.state in {Closed, WaitConnAck, WaitICEA, IOpen}
             && (rejected || closedR)
    ensures var w := Settle(me, you.(cer := Delivered), Refusing(me.node, r, remote, rejected, closedR)); View(w.0, w.1)
  {
    Ending(you.back, me.granted, me.shut, []);
    Ending(you.back, me.granted, me.shut, [CeaErr]);
    NoWinQueued(me.node.queue);
    hide Less, WellFormed, OnlyWins, Greater, SuccessFirst;
  }

  lemma RefusingKeepsYours(me: Half, you: Half, r: Option<Conn>, remote: Text, rejected: bool, closedR: bool)
    requires Pair(me, you) && you.cer == InFlight && me.node.state in {Closed, WaitConnAck, WaitICEA, IOpen}
             && (rejected || closedR)
    ensures var w := Settle(me, you.(cer := Delivered), Refusing(me.node, r, remote, rejected, closedR)); View(w.1, w.0)
  {
    Ending(you.back, me.granted, me.shut, []);
    Ending(you.back, me.granted, me.shut, [CeaErr]);
    NoWinQueued(me.node.queue);
    hide Less, WellFormed, OnlyWins, Greater, SuccessFirst;
  }

  lemma RefusingKeeps(me: Half, you: Half, r: Option<Conn>, remote: Text, rejected: bool, closedR: bool)
    requires Pair(me, you) && you.cer == InFlight && me.node.state in {Closed, WaitConnAck, WaitICEA, IOpen}
             && (rejected || closedR)
    ensures var w := Settle(me, you.(cer := Delivered), Refusing(me.node, r, remote, rejected, closedR)); Pair(w.0, w.1)
  {
    RefusingKeepsMine(me, you, r, remote, rejected, closedR);
    RefusingKeepsYours(me, you, r, remote, rejected, closedR);
    hide View, Settle, Refusing;
  }

  function Accepting(n: Node, remote: Text): Node {
    n.(state := ROpen, rConn := Some(THEIRS), remote := remote, watchdog := Armed, fx := SILENT.(sentCEA := true))
  }

  lemma AcceptingKeepsMine(me: Half, you: Half, remote: Text)
    requires Pair(me, you) && you.cer == InFlight && me.node.state == Closed
    ensures var w := Settle(me, you.(cer := Delivered), Accepting(me.node, remote)); View(w.0, w.1)
  {
    Granting(you.back, me.granted, me.shut);
    NoWinQueued(me.node.queue);
    hide Less, WellFormed, OnlyWins, Greater, SuccessFirst;
  }

  lemma AcceptingKeepsYours(me: Half, you: Half, remote: Text)
    requires Pair(me, you) && you.cer == InFlight && me.node.state == Closed
    ensures var w := Settle(me, you.(cer := Delivered), Accepting(me.node, remote)); View(w.1, w.0)
  {
    Granting(you.back, me.granted, me.shut);
    NoWinQueued(me.node.queue);
    hide Less, WellFormed, OnlyWins, Greater, SuccessFirst;
  }

  lemma AcceptingKeeps(me: Half, you: Half, remote: Text)
    requires Pair(me, you) && you.cer == InFlight && me.node.state == Closed
    ensures var w := Settle(me, you.(cer := Delivered), Accepting(me.node, remote)); Pair(w.0, w.1)
  {
    AcceptingKeepsMine(me, you, remote);
    AcceptingKeepsYours(me, you, remote);
    hide View, Settle, Accepting;
  }

  function Keeping(n: Node, s: PeerState, remote: Text): Node {
    n.(state := s, rConn := Some(THEIRS), remote := remote, pendingCER := true, fx := SILENT)
  }

  lemma KeepingKeepsMine(me: Half, you: Half)
    requires Pair(me, you) && you.cer == InFlight && me.node.state == WaitConnAck
    ensures var w := Settle(me, you.(cer := Delivered), Keeping(me.node, WaitConnAckElect, you.node.local));
            View(w.0, w.1)
  {
    Nothing(you.back);
    NoWinQueued(me.node.queue);
    hide Less, WellFormed, OnlyWins, Greater, SuccessFirst;
  }

  lemma KeepingKeepsYours(me: Half, you: Half)
    requires Pair(me, you) && you.cer == InFlight && me.node.state == WaitConnAck
    ensures var w := Settle(me, you.(cer := Delivered), Keeping(me.node, WaitConnAckElect, you.node.local));
            View(w.1, w.0)
  {
    Nothing(you.back);
    NoWinQueued(me.node.queue);
    hide Less, WellFormed, OnlyWins, Greater, SuccessFirst;
  }

  lemma KeepingKeeps(me: Half, you: Half)
    requires Pair(me, you) && you.cer == InFlight && me.node.state == WaitConnAck
    ensures var w := Settle(me, you.(cer := Delivered), Keeping(me.node, WaitConnAckElect, you.node.local));
            Pair(w.0, w.1)
  {
    KeepingKeepsMine(me, you);
    KeepingKeepsYours(me, you);
    hide View, Settle, Keeping;
  }

  lemma ElectingKeepsOwn(me: Half, you: Half)
    requires Pair(me, you) && you.cer == InFlight && me.node.state == WaitICEA
    ensures var w := Settle(me, you.(cer := Delivered), Elect(Keeping(me.node, WaitReturns, you.node.local)));
            OwnSide(w.0)
  {
    Nothing(you.back);
    Electing(Keeping(me.node, WaitReturns, you.node.local), me, you);
    hide Less, WellFormed, OnlyWins, Greater, SuccessFirst, Elect;
  }

  lemma ElectingKeepsOther(me: Half, you: Half)
    requires Pair(me, you) && you.cer == InFlight && me.node.state == WaitICEA
    ensures var w := Settle(me, you.(cer := Delivered), Elect(Keeping(me.node, WaitReturns, you.node.local)));
            OtherSide(w.0, w.1)
  {
    Nothing(you.back);
    Electing(Keeping(me.node, WaitReturns, you.node.local), me, you);
    hide Less, WellFormed, OnlyWins, Greater, SuccessFirst, Elect;
  }

  lemma ElectingKeepsMineSides(me: Half, you: Half)
    requires Pair(me, you) && you.cer == InFlight && me.node.state == WaitICEA
    ensures var w := Settle(me, you.(cer := Delivered), Elect(Keeping(me.node, WaitReturns, you.node.local)));
            OwnSide(w.0) && OtherSide(w.0, w.1)
  {
    ElectingKeepsOwn(me, you);
    ElectingKeepsOther(me, you);
    hide OwnSide, OtherSide, Settle, Elect;
  }

  lemma ElectingKeepsMineLinks(me: Half, you: Half)
    requires Pair(me, you) && you.cer == InFlight && me.node.state == WaitICEA
    ensures var w := Settle(me, you.(cer := Delivered), Elect(Keeping(me.node, WaitReturns, you.node.local)));
            Channel(w.0, w.1) && Reasons(w.0, w.1)
  {
    Nothing(you.back);
    Electing(Keeping(me.node, WaitReturns, you.node.local), me, you);
    hide Less, WellFormed, OnlyWins, Greater, SuccessFirst, Elect;
  }

  lemma ElectingKeepsMine(me: Half, you: Half)
    requires Pair(me, you) && you.cer == InFlight && me.node.state == WaitICEA
    ensures var w := Settle(me, you.(cer := Delivered), Elect(Keeping(me.node, WaitReturns, you.node.local)));
            View(w.0, w.1)
  {
    ElectingKeepsMineSides(me, you);
    ElectingKeepsMineLinks(me, you);
    hide OwnSide, OtherSide, Channel, Reasons, Settle, Elect;
  }

  lemma ElectingKeepsYours(me: Half, you: Half)
    requires Pair(me, you) && you.cer == InFlight && me.node.state == WaitICEA
    ensures var w := Settle(me, you.(cer := Delivered), Elect(Keeping(me.node, WaitReturns, you.node.local)));
            View(w.1, w.0)
  {
    Nothing(you.back);
    Electing(Keeping(me.node, WaitReturns, you.node.local), me, you);
    hide Less, WellFormed, OnlyWins, Greater, SuccessFirst, Elect;
  }

  lemma ElectingKeeps(me: Half, you: Half)
    requires Pair(me, you) && you.cer == InFlight && me.node.state == WaitICEA
    ensures var w := Settle(me, you.(cer := Delivered), Elect(Keeping(me.node, WaitReturns, you.node.local)));
            Pair(w.0, w.1)
  {
    ElectingKeepsMine(me, you);
    ElectingKeepsYours(me, you);
    hide View, Settle, Elect, Keeping;
  }

  lemma DroppedKeeps(me: Half, you: Half)
    requires Pair(me, you) && you.cer == InFlight && me.node.state == Zombie
    ensures var w := Settle(me, you.(cer := Delivered), me.node.(fx := SILENT)); Pair(w.0, w.1)
  {
    Nothing(you.back);
    NoWinQueued(me.node.queue);
    hide Less, WellFormed, OnlyWins, Greater, SuccessFirst;
  }

  /** In the states that can still be when the request is on its way, what the handler does with it. */
  lemma RequestHandled(me: Half, you: Half, accepted: bool, sendOk: bool)
    requires Pair(me, you) && you.cer == InFlight
    ensures var (n, remote) := (me.node, you.node.local);
            var q := Handle(n, RConnCER(THEIRS, Some(remote), accepted), sendOk);
      match n.state
      case Closed => q == (if !accepted then Refusing(n, Some(THEIRS), remote, true, false)
                           else if !sendOk then Refusing(n, None, remote, false, true) else Accepting(n, remote))
      case WaitConnAck => q == if !accepted then Refusing(n, None, remote, true, true)
        else Keeping(n, WaitConnAckElect, remote)
      case WaitICEA => q == if !accepted then Refusing(n, None, remote, true, true)
        else Elect(Keeping(n, WaitReturns, remote))
      case IOpen => q == Refusing(n, n.rConn, n.remote, true, false)
      case Zombie => q == n.(fx := SILENT)
      case _ => false
  {
    hide Less, WellFormed, OnlyWins, Greater, SuccessFirst, Elect;
  }

  lemma TakeCERKeeps(me: Half, you: Half, accepted: bool, sendOk: bool)
    requires Pair(me, you) && you.cer == InFlight
    ensures var r := React(me, you.(cer := Delivered), RConnCER(THEIRS, Some(you.node.local), accepted), sendOk);
            Pair(r.0, r.1)
  {
    RequestHandled(me, you, accepted, sendOk);
    hide Handle, View, Settle, Refusing, Accepting, Keeping, Elect;
    var (n, remote) := (me.node, you.node.local);
    match n.state
    case Closed =>
      if !accepted {
        RefusingKeeps(me, you, Some(THEIRS), remote, true, false);
      } else if !sendOk {
        RefusingKeeps(me, you, None, remote, false, true);
      } else {
        AcceptingKeeps(me, you, remote);
      }
    case WaitConnAck =>
      RefusingKeeps(me, you, None, remote, true, true);
      KeepingKeeps(me, you);
    case WaitICEA =>
      RefusingKeeps(me, you, None, remote, true, true);
      ElectingKeeps(me, you);
    case IOpen => RefusingKeeps(me, you, n.rConn, n.remote, true, false);
    case Zombie => DroppedKeeps(me, you);
  }

  // ---------------------------------------------------------------- what comes back

  /** The node that got its answer, letting go of the other transport if it still held it for the election. */
  function Opened(n: Node, remote: Text): Node {
    var drop := n.state == WaitReturns;
    n.(state := IOpen, rConn := if drop then None else n.rConn, pendingCER := !drop && n.pendingCER,
       timeout := Nil, watchdog := Armed, remote := remote, fx := SILENT.(closedR := drop && n.rConn.Some?))
  }

  lemma OpenedKeepsMineSides(me: Half, you: Half, remote: Text)
    requires Pair(me, you) && me.node.state in {WaitICEA, WaitReturns} && me.back != [] && me.back[0] == CeaOk
    ensures var r := Settle(me.(back := me.back[1..]), you, Opened(me.node, remote));
            OwnSide(r.0) && OtherSide(r.0, r.1)
  {
    Nothing(you.back);
    Ending(you.back, me.granted, me.shut, []);
    Reading(me.back, you.granted, you.shut);
    NoWinQueued(me.node.queue);
    hide Less, WellFormed, OnlyWins, Greater;
  }

  lemma OpenedKeepsMineLinks(me: Half, you: Half, remote: Text)
    requires Pair(me, you) && me.node.state in {WaitICEA, WaitReturns} && me.back != [] && me.back[0] == CeaOk
    ensures var r := Settle(me.(back := me.back[1..]), you, Opened(me.node, remote));
            Channel(r.0, r.1) && Reasons(r.0, r.1)
  {
    Nothing(you.back);
    Ending(you.back, me.granted, me.shut, []);
    Reading(me.back, you.granted, you.shut);
    NoWinQueued(me.node.queue);
    hide Less, WellFormed, OnlyWins, Greater;
  }

  lemma OpenedKeepsMine(me: Half, you: Half, remote: Text)
    requires Pair(me, you) && me.node.state in {WaitICEA, WaitReturns} && me.back != [] && me.back[0] == CeaOk
    ensures var r := Settle(me.(back := me.back[1..]), you, Opened(me.node, remote)); View(r.0, r.1)
  {
    OpenedKeepsMineSides(me, you, remote);
    OpenedKeepsMineLinks(me, you, remote);
    hide OwnSide, OtherSide, Channel, Reasons, Settle;
  }

  lemma OpenedKeepsYours(me: Half, you: Half, remote: Text)
    requires Pair(me, you) && me.node.state in {WaitICEA, WaitReturns} && me.back != [] && me.back[0] == CeaOk
    ensures var r := Settle(me.(back := me.back[1..]), you, Opened(me.node, remote)); View(r.1, r.0)
  {
    Nothing(you.back);
    Ending(you.back, me.granted, me.shut, []);
    Reading(me.back, you.granted, you.shut);
    NoWinQueued(me.node.queue);
    hide Less, WellFormed, OnlyWins, Greater;
  }

  lemma OpenedKeeps(me: Half, you: Half, remote: Text)
    requires Pair(me, you) && me.node.state in {WaitICEA, WaitReturns} && me.back != [] && me.back[0] == CeaOk
    ensures var r := Settle(me.(back := me.back[1..]), you, Opened(me.node, remote)); Pair(r.0, r.1)
  {
    OpenedKeepsMine(me, you, remote);
    OpenedKeepsYours(me, you, remote);
    hide View, Settle, Opened;
  }

  /** Reading on is harmless outside a wait for the answer, and after anything but a success. */
  lemma ReadKeeps(me: Half, you: Half)
    requires Pair(me, you) && me.back != []
    requires me.node.state in {WaitICEA, WaitReturns} ==> me.back[0] != CeaOk
    ensures Pair(me.(back := me.back[1..]), you)
  {
    Reading(me.back, you.granted, you.shut);
    hide Less, WellFormed, OnlyWins, Greater;
  }

  /** Nothing but an answer ends the transport before the answer. */
  lemma HeadMeansShut(me: Half, you: Half)
    requires Pair(me, you) && me.back != [] && me.back[0] != CeaOk
    ensures you.shut && me.dial == Settled
  {
    Reading(me.back, you.granted, you.shut);
    hide Less, OnlyWins, Greater;
  }

  lemma OkHandled(me: Half, you: Half, sendOk: bool)
    requires Pair(me, you) && me.back != [] && me.back[0] == CeaOk
    ensures var (n, remote) := (me.node, you.node.local);
            Handle(n, IRcvCEA(Some(remote)), sendOk)
              == if n.state in {WaitICEA, WaitReturns} then Opened(n, remote) else n.(fx := SILENT)
  {
    hide Less, WellFormed, OnlyWins, Greater;
  }

  lemma ErrHandled(n: Node, sendOk: bool)
    requires n.state != Suspect && n.state != Closing
    ensures Handle(n, IRcvCEA(None), sendOk) ==
      match n.state
      case WaitICEA => Down(n, Closed, false, Nil, false)
      case WaitReturns => Down(n, Closed, false, n.watchdog, false)
      case _ => n.(fx := SILENT)
  {
    DownIs(n);
  }

  lemma EofHandled(n: Node, sendOk: bool)
    requires n.state != Suspect && n.state != Closing
    ensures Handle(n, IPeerDisc, sendOk) ==
      match n.state
      case WaitICEA => Down(n, if n.persistent then Closed else Zombie, n.persistent, Nil, false)
      case IOpen => Down(n, if n.persistent then Closed else Zombie, n.persistent, Nil, false)
      case WaitReturns => (if sendOk then Granted(n) else Down(n, Closed, false, n.watchdog, n.pendingCER))
      case _ => n.(fx := SILENT)
  {
    DownIs(n);
  }

  lemma TakeOkKeeps(me: Half, you: Half, sendOk: bool)
    requires Pair(me, you) && me.back != [] && me.back[0] == CeaOk
    ensures var r := React(me.(back := me.back[1..]), you, IRcvCEA(Some(you.node.local)), sendOk); Pair(r.0, r.1)
  {
    OkHandled(me, you, sendOk);
    if me.node.state in {WaitICEA, WaitReturns} {
      OpenedKeeps(me, you, you.node.local);
      hide Handle, View, Settle, Opened;
    } else {
      ReadKeeps(me, you);
      hide Handle, View, Settle;
      Silence(me.(back := me.back[1..]), you, IRcvCEA(Some(you.node.local)), sendOk);
    }
  }

  lemma TakeErrKeeps(me: Half, you: Half, sendOk: bool)
    requires Pair(me, you) && me.back != [] && me.back[0] == CeaErr
    ensures var r := React(me.(back := me.back[1..]), you, IRcvCEA(None), sendOk); Pair(r.0, r.1)
  {
    ErrHandled(me.node, sendOk);
    HeadMeansShut(me, you);
    ReadKeeps(me, you);
    hide Handle, View, Settle, Down;
    var read := me.(back := me.back[1..]);
    if me.node.state == WaitICEA {
      DownKeeps(read, you, Closed, false, Nil, false);
    } else if me.node.state == WaitReturns {
      DownKeeps(read, you, Closed, false, me.node.watchdog, false);
    } else {
      Silence(read, you, IRcvCEA(None), sendOk);
    }
  }

  lemma TakeEofKeeps(me: Half, you: Half, sendOk: bool)
    requires Pair(me, you) && me.back != [] && me.back[0] == Eof
    ensures var r := React(me, you, IPeerDisc, sendOk); Pair(r.0, r.1)
  {
    EofHandled(me.node, sendOk);
    HeadMeansShut(me, you);
    hide Handle, View, Settle, Down, Granted;
    var n := me.node;
    if n.state == WaitICEA || n.state == IOpen {
      DownKeeps(me, you, if n.persistent then Closed else Zombie, n.persistent, Nil, false);
    } else if n.state == WaitReturns {
      AnsweredKeeps(me, you, sendOk);
    } else {
      Silence(me, you, IPeerDisc, sendOk);
    }
  }

  /** A node that closed its own transport is past caring about its end. */
  lemma OwnEndKeeps(me: Half, you: Half, sendOk: bool)
    requires Pair(me, you) && me.hung
    ensures var r := React(me, you, IPeerDisc, sendOk); Pair(r.0, r.1)
  {
    EofHandled(me.node, sendOk);
    assert me.node.state in {ROpen, Closed, Zombie};
    hide Handle, View, Settle, Down, Granted;
    Silence(me, you, IPeerDisc, sendOk);
  }

  lemma TheirEndKeeps(me: Half, you: Half, sendOk: bool)
    requires Pair(me, you) && me.granted && (you.hung || me.shut)
    ensures var r := React(me, you, RPeerDisc, sendOk); Pair(r.0, r.1)
  {
    DownIs(me.node);
    var n := me.node;
    assert n.state !in {WaitConnAckElect, WaitReturns, Suspect, Closing};
    if n.state == ROpen {
      var s := if n.persistent then Closed else Zombie;
      assert you.hung && me.dial != Dialling && n.iConn == None;
      assert Handle(n, RPeerDisc, sendOk) == Down(n, s, n.persistent, Nil, false);
      hide Handle, View, Settle, Down;
      DownKeeps(me, you, s, n.persistent, Nil, false);
    } else {
      assert Handle(n, RPeerDisc, sendOk) == n.(fx := SILENT);
      hide Handle, View, Settle, Down;
      Silence(me, you, RPeerDisc, sendOk);
    }
  }

  lemma PopKeeps(me: Half, you: Half)
    requires Pair(me, you) && me.node.queue != []
    ensures Pair(me.(node := me.node.(queue := me.node.queue[1..])), you) && me.node.queue[0] == WinElection && me.won
  {
    hide Less, WellFormed, Greater;
  }

  lemma WinKeeps(me: Half, you: Half, sendOk: bool)
    requires Pair(me, you) && me.node.queue != []
    ensures var r := React(me.(node := me.node.(queue := me.node.queue[1..])), you, me.node.queue[0], sendOk);
            Pair(r.0, r.1)
  {
    PopKeeps(me, you);
    var popped := me.(node := me.node.(queue := me.node.queue[1..]));
    var n := popped.node;
    WinHandled(n, sendOk);
    assert n.state == WaitReturns ==> me.dial == Settled;
    hide Handle, View, Settle, Down, Granted;
    if n.state == WaitReturns {
      AnsweredKeeps(popped, you, sendOk);
    } else {
      Silence(popped, you, WinElection, sendOk);
    }
  }

  lemma WinHandled(n: Node, sendOk: bool)
    ensures Handle(n, WinElection, sendOk) ==
      if n.state != WaitReturns then n.(fx := SILENT)
      else if sendOk then Granted(n) else Down(n, Closed, false, n.watchdog, n.pendingCER)
  {
  }

  lemma BeginKeeps(me: Half, you: Half, sendOk: bool)
    requires Pair(me, you) && me.dial == Idle
    ensures var r := React(me, you, Start, sendOk); Pair(r.0, r.1)
  {
    if me.node.state == Closed {
      StartKeeps(me, you, sendOk);
    } else {
      assert Handle(me.node, Start, sendOk) == me.node.(fx := SILENT);
      Silence(me, you, Start, sendOk);
    }
    hide View, Settle, Handle;
  }

  lemma DialKeeps(me: Half, you: Half)
    requires Pair(me, you) && me.dial == Dialling
    ensures Pair(me.(node := me.node.(iConn := Some(MINE)), dial := Connected), you) && Pair(me.(dial := Refused), you)
  {
    hide Less, WellFormed, OnlyWins, Greater, SuccessFirst;
  }

  // ---------------------------------------------------------------- runs

  lemma ActionKeeps(me: Half, you: Half, a: Action)
    requires Pair(me, you) && Can(me, you, a)
    ensures var r := DoCollide(me, you, a); Pair(r.0, r.1)
  {
    hide View, React;
    match a
    case Begin(sendOk) => BeginKeeps(me, you, sendOk);
    case DialOk => DialKeeps(me, you);
    case DialFails => DialKeeps(me, you);
    case Told(sendOk) =>
      if me.dial == Connected {
        AckKeeps(me, you, sendOk);
      } else {
        NackKeeps(me, you, sendOk);
      }
    case TakeCER(accepted, sendOk) => TakeCERKeeps(me, you, accepted, sendOk);
    case TakeBack(sendOk) =>
      match me.back[0] {
        case CeaOk => TakeOkKeeps(me, you, sendOk);
        case CeaErr => TakeErrKeeps(me, you, sendOk);
        case Eof => TakeEofKeeps(me, you, sendOk);
      }
    case OwnEnd(sendOk) => OwnEndKeeps(me, you, sendOk);
    case TheirEnd(sendOk) => TheirEndKeeps(me, you, sendOk);
    case Win(sendOk) => WinKeeps(me, you, sendOk);
  }

  lemma {:induction false} RunKeeps(w: World, steps: seq<Step>, to: World)
    requires Inv(w) && RunWorld(w, steps, to)
    ensures Inv(to)
    decreases |steps|
  {
    if steps != [] {
      var s := steps[0];
      if s.first {
        ActionKeeps(w.a, w.b, s.action);
      } else {
        ActionKeeps(w.b, w.a, s.action);
      }
      hide View, DoCollide, Can;
      RunKeeps(DoStep(w, s), steps[1..], to);
    }
  }

  lemma FreshKeeps(a: Text, b: Text, persistentA: bool, persistentB: bool)
    ensures Inv(World(Fresh(a, persistentA), Fresh(b, persistentB)))
  {
    hide Less;
  }

  lemma {:induction false} LessIsStrict(a: Text, b: Text)
    ensures !(Less(a, b) && Less(b, a))
  {
    if a != [] && b != [] {
      LessIsStrict(a[1..], b[1..]);
    }
  }

  lemma CleanupKeepsLocal(n: Node, sendOk: bool)
    ensures FailClosed(n).local == n.local && FailAndReconnect(n).local == n.local
    ensures AnswerPending(n, sendOk).local == n.local && Elect(n).local == n.local
  {
    hide Less;
  }

  lemma CleanupsKeepLocal(sendOk: bool)
    ensures forall m: Node :: FailClosed(m).local == m.local && FailAndReconnect(m).local == m.local
    ensures forall m: Node :: AnswerPending(m, sendOk).local == m.local && Elect(m).local == m.local
  {
    forall m: Node
      ensures FailClosed(m).local == m.local && FailAndReconnect(m).local == m.local
              && AnswerPending(m, sendOk).local == m.local && Elect(m).local == m.local
    {
      CleanupKeepsLocal(m, sendOk);
    }
  }

  lemma ClosedKeepsLocal(n: Node, ev: Event, sendOk: bool)
    ensures InClosed(n, ev, sendOk).local == n.local
  {
    CleanupsKeepLocal(sendOk);
    hide FailClosed, FailAndReconnect, AnswerPending, Elect, Less;
  }

  lemma WaitConnAckKeepsLocal(n: Node, ev: Event, sendOk: bool)
    ensures InWaitConnAck(n, ev, sendOk).local == n.local
  {
    CleanupsKeepLocal(sendOk);
    hide FailClosed, FailAndReconnect, AnswerPending, Elect, Less;
  }

  lemma WaitICEAKeepsLocal(n: Node, ev: Event, sendOk: bool)
    ensures InWaitICEA(n, ev).local == n.local
  {
    CleanupsKeepLocal(sendOk);
    hide FailClosed, FailAndReconnect, AnswerPending, Elect, Less;
  }

  lemma WaitConnAckElectKeepsLocal(n: Node, ev: Event, sendOk: bool)
    ensures InWaitConnAckElect(n, ev, sendOk).local == n.local
  {
    CleanupsKeepLocal(sendOk);
    hide FailClosed, FailAndReconnect, AnswerPending, Elect, Less;
  }

  lemma WaitReturnsKeepsLocal(n: Node, ev: Event, sendOk: bool)
    ensures InWaitReturns(n, ev, sendOk).local == n.local
  {
    CleanupsKeepLocal(sendOk);
    hide FailClosed, FailAndReconnect, AnswerPending, Elect, Less;
  }

  lemma ROpenKeepsLocal(n: Node, ev: Event, sendOk: bool)
    ensures InROpen(n, ev).local == n.local
  {
    CleanupsKeepLocal(sendOk);
    hide FailClosed, FailAndReconnect, AnswerPending, Elect, Less;
  }

  lemma IOpenKeepsLocal(n: Node, ev: Event, sendOk: bool)
    ensures InIOpen(n, ev).local == n.local
  {
    CleanupsKeepLocal(sendOk);
    hide FailClosed, FailAndReconnect, AnswerPending, Elect, Less;
  }

  lemma SuspectKeepsLocal(n: Node, ev: Event, sendOk: bool)
    ensures InSuspect(n, ev).local == n.local
  {
    CleanupsKeepLocal(sendOk);
    hide FailClosed, FailAndReconnect, AnswerPending, Elect, Less;
  }

  lemma ClosingKeepsLocal(n: Node, ev: Event, sendOk: bool)
    ensures InClosing(n, ev).local == n.local
  {
    CleanupsKeepLocal(sendOk);
    hide FailClosed, FailAndReconnect, AnswerPending, Elect, Less;
  }

  lemma LocalStays(n: Node, ev: Event, sendOk: bool)
    ensures Handle(n, ev, sendOk).local == n.local
  {
    hide InClosed, InWaitConnAck, InWaitICEA, InWaitConnAckElect, InWaitReturns, InROpen, InIOpen, InSuspect, InClosing;
    var q := n.(fx := SILENT);
    match n.state {
      case Closed => ClosedKeepsLocal(q, ev, sendOk);
      case WaitConnAck => WaitConnAckKeepsLocal(q, ev, sendOk);
      case WaitICEA => WaitICEAKeepsLocal(q, ev, sendOk);
      case WaitConnAckElect => WaitConnAckElectKeepsLocal(q, ev, sendOk);
      case WaitReturns => WaitReturnsKeepsLocal(q, ev, sendOk);
      case ROpen => ROpenKeepsLocal(q, ev, sendOk);
      case IOpen => IOpenKeepsLocal(q, ev, sendOk);
      case Suspect => SuspectKeepsLocal(q, ev, sendOk);
      case Closing => ClosingKeepsLocal(q, ev, sendOk);
      case Zombie =>
    }
  }

  lemma ReactKeepsNames(me: Half, you: Half, ev: Event, sendOk: bool)
    ensures var r := React(me, you, ev, sendOk); r.0.node.local == me.node.local && r.1.node == you.node
  {
    LocalStays(me.node, ev, sendOk);
    hide Handle;
  }

  lemma ActionKeepsNames(me: Half, you: Half, a: Action)
    requires Can(me, you, a)
    ensures var r := DoCollide(me, you, a); r.0.node.local == me.node.local && r.1.node.local == you.node.local
  {
    forall h: Half, o: Half, ev, ok
      ensures React(h, o, ev, ok).0.node.local == h.node.local && React(h, o, ev, ok).1.node == o.node
    {
      ReactKeepsNames(h, o, ev, ok);
    }
    hide React, Can;
  }

  lemma {:induction false} RunKeepsNames(w: World, steps: seq<Step>, to: World)
    requires RunWorld(w, steps, to)
    ensures to.a.node.local == w.a.node.local && to.b.node.local == w.b.node.local
    decreases |steps|
  {
    if steps != [] {
      var s := steps[0];
      if s.first {
        ActionKeepsNames(w.a, w.b, s.action);
      } else {
        ActionKeepsNames(w.b, w.a, s.action);
      }
      hide DoCollide, Can;
      RunKeepsNames(DoStep(w, s), steps[1..], to);
    }
  }

  /**
   * A node issues Win-Election only if the other's identity comes before its own, letter case aside; so
   * at most one of the two ever does.
   */
  lemma OneWinner(a: Text, b: Text, persistentA: bool, persistentB: bool, steps: seq<Step>, to: World)
    requires RunWorld(World(Fresh(a, persistentA), Fresh(b, persistentB)), steps, to)
    ensures to.a.won ==> Precedes(Lower(b), Lower(a))
    ensures to.b.won ==> Precedes(Lower(a), Lower(b))
    ensures !(to.a.won && to.b.won)
  {
    var w := World(Fresh(a, persistentA), Fresh(b, persistentB));
    FreshKeeps(a, b, persistentA, persistentB);
    RunKeeps(w, steps, to);
    RunKeepsNames(w, steps, to);
    LessIsStrict(Lower(a), Lower(b));
    LessMeans(Lower(a), Lower(b));
    LessMeans(Lower(b), Lower(a));
    hide Less, OwnSide, OtherSide, Channel, RunWorld, Precedes;
  }

  /** Two open nodes in a state that a run can reach. */
  lemma BothOpenShare(to: World)
    requires Inv(to) && IsOpen(to.a) && IsOpen(to.b)
    ensures (to.a.node.state == IOpen && to.b.node.state == ROpen && !to.a.hung && !to.b.shut)
         || (to.a.node.state == ROpen && to.b.node.state == IOpen && !to.b.hung && !to.a.shut)
  {
    LessIsStrict(Lower(to.a.node.local), Lower(to.b.node.local));
    hide Less, WellFormed, OnlyWins;
  }

  /**
   * Simultaneous open: in every interleaving, whenever both nodes are open they are open on the same
   * transport: one as its initiator, the other as its responder, and neither has closed it.
   */
  lemma BothOpenOnOneTransport(a: Text, b: Text, persistentA: bool, persistentB: bool, steps: seq<Step>, to: World)
    requires RunWorld(World(Fresh(a, persistentA), Fresh(b, persistentB)), steps, to)
    requires IsOpen(to.a) && IsOpen(to.b)
    ensures (to.a.node.state == IOpen && to.b.node.state == ROpen && !to.a.hung && !to.b.shut)
         || (to.a.node.state == ROpen && to.b.node.state == IOpen && !to.b.hung && !to.a.shut)
  {
    FreshKeeps(a, b, persistentA, persistentB);
    RunKeeps(World(Fresh(a, persistentA), Fresh(b, persistentB)), steps, to);
    BothOpenShare(to);
    hide Inv, RunWorld;
  }

  // ---------------------------------------------------------------- the crossing itself

  /** A node whose request is out. */
  function Asking(local: Text, persistent: bool, cer: Request): Half {
    Half(Node(WaitICEA, Some(MINE), None, false, Armed, Nil, local, [], persistent, [], SILENT.(sentCER := true)),
         Settled, cer, [], false, false, false, false)
  }

  /** The same node when the other's request has come in. */
  function Crossed(local: Text, remote: Text, persistent: bool, cer: Request): Half {
    var wins := Less(Lower(remote), Lower(local));
    Half(Node(WaitReturns, Some(MINE), Some(THEIRS), true, Armed, Nil, local, remote, persistent,
              if wins then [WinElection] else [], SILENT),
         Settled, cer, [], false, false, false, wins)
  }

  lemma {:induction false} RunThen(w: World, xs: seq<Step>, mid: World, ys: seq<Step>, to: World)
    requires RunWorld(w, xs, mid) && RunWorld(mid, ys, to)
    ensures RunWorld(w, xs + ys, to)
    decreases |xs|
  {
    hide CanStep, DoStep;
    if xs == [] {
      assert xs + ys == ys;
    } else {
      RunThen(DoStep(w, xs[0]), xs[1..], mid, ys, to);
      assert (xs + ys)[1..] == xs[1..] + ys;
    }
  }

  lemma OneStep(w: World, s: Step)
    requires CanStep(w, s)
    ensures RunWorld(w, [s], DoStep(w, s))
  {
    hide CanStep, DoStep;
    assert RunWorld(DoStep(w, s), [s][1..], DoStep(w, s));
  }

  /** What a node does up to the sending of its request; the other one sees nothing of it. */
  lemma AskingSteps(local: Text, persistent: bool, you: Half)
    ensures var h := Fresh(local, persistent);
            var h1 := DoCollide(h, you, Begin(true)).0;
      && h1.dial == Dialling && DoCollide(h, you, Begin(true)).1 == you
      && var h2 := DoCollide(h1, you, DialOk).0;
         && h2.dial == Connected && DoCollide(h2, you, Told(true)) == (Asking(local, persistent, InFlight), you)
  {
    Nothing(you.back);
  }

  lemma AskFirst(w: World, local: Text, persistent: bool) returns (steps: seq<Step>)
    requires w.a == Fresh(local, persistent)
    ensures RunWorld(w, steps, World(Asking(local, persistent, InFlight), w.b))
  {
    AskingSteps(local, persistent, w.b);
    hide DoCollide;
    var (s1, s2, s3) := (Step(true, Begin(true)), Step(true, DialOk), Step(true, Told(true)));
    var w1 := DoStep(w, s1);
    assert DoCollide(w1.a, w1.b, DialOk).1 == w.b by { DialLeaves(w1.a, w1.b); }
    var w2 := DoStep(w1, s2);
    OneStep(w, s1);
    OneStep(w1, s2);
    OneStep(w2, s3);
    RunThen(w, [s1], w1, [s2], w2);
    RunThen(w, [s1] + [s2], w2, [s3], DoStep(w2, s3));
    steps := [s1] + [s2] + [s3];
  }

  lemma DialLeaves(me: Half, you: Half)
    requires me.dial == Dialling
    ensures DoCollide(me, you, DialOk).1 == you
  {
  }

  function Mirror(steps: seq<Step>): seq<Step> {
    seq(|steps|, i requires 0 <= i < |steps| => Step(!steps[i].first, steps[i].action))
  }

  /** The two nodes can be exchanged. */
  lemma {:induction false} MirrorRun(w: World, steps: seq<Step>, to: World)
    requires RunWorld(w, steps, to)
    ensures RunWorld(World(w.b, w.a), Mirror(steps), World(to.b, to.a))
    decreases |steps|
  {
    if steps != [] {
      hide DoCollide, Can;
      var next := DoStep(w, steps[0]);
      MirrorRun(next, steps[1..], to);
      assert Mirror(steps)[1..] == Mirror(steps[1..]);
      assert DoStep(World(w.b, w.a), Mirror(steps)[0]) == World(next.b, next.a);
    }
  }

  lemma CrossingStep(a: Text, b: Text, persistentA: bool, you: Half, cer: Request)
    requires you.node.local == b && you.cer == InFlight
    ensures DoCollide(Asking(a, persistentA, cer), you, TakeCER(true, true))
            == (Crossed(a, b, persistentA, cer), you.(cer := Delivered))
  {
    Nothing(you.back);
    hide Less;
    var q: seq<Event> := if Less(Lower(b), Lower(a)) then [WinElection] else [];
    assert [] + [WinElection] == [WinElection];
    assert Handle(Asking(a, persistentA, cer).node, RConnCER(THEIRS, Some(b), true), true)
           == Crossed(a, b, persistentA, cer).node;
    assert WinElection in q <==> Less(Lower(b), Lower(a));
  }

  /** Both requests cross: both nodes come to wait for the outcome of the election. */
  lemma RequestsCross(a: Text, b: Text, persistentA: bool, persistentB: bool) returns (steps: seq<Step>)
    ensures RunWorld(World(Fresh(a, persistentA), Fresh(b, persistentB)), steps,
                     World(Crossed(a, b, persistentA, Delivered), Crossed(b, a, persistentB, Delivered)))
  {
    var w := World(Fresh(a, persistentA), Fresh(b, persistentB));
    var xs := AskFirst(w, a, persistentA);
    var w1 := World(Asking(a, persistentA, InFlight), Fresh(b, persistentB));
    var ys := AskFirst(World(w1.b, w1.a), b, persistentB);
    MirrorRun(World(w1.b, w1.a), ys, World(Asking(b, persistentB, InFlight), w1.a));
    var w2 := World(Asking(a, persistentA, InFlight), Asking(b, persistentB, InFlight));
    CrossingStep(a, b, persistentA, w2.b, InFlight);
    var w3 := World(Crossed(a, b, persistentA, InFlight), Asking(b, persistentB, Delivered));
    OneStep(w2, Step(true, TakeCER(true, true)));
    CrossingStep(b, a, persistentB, w3.a, Delivered);
    OneStep(w3, Step(false, TakeCER(true, true)));
    var to := World(Crossed(a, b, persistentA, Delivered), Crossed(b, a, persistentB, Delivered));
    assert DoStep(w2, Step(true, TakeCER(true, true))) == w3;
    assert DoStep(w3, Step(false, TakeCER(true, true))) == to;
    hide RunWorld, DoStep, Fresh, Asking, Crossed;
    RunThen(w, xs, w1, Mirror(ys), w2);
    RunThen(w, xs + Mirror(ys), w2, [Step(true, TakeCER(true, true))], w3);
    RunThen(w, xs + Mirror(ys) + [Step(true, TakeCER(true, true))], w3, [Step(false, TakeCER(true, true))], to);
    steps := xs + Mirror(ys) + [Step(true, TakeCER(true, true))] + [Step(false, TakeCER(true, true))];
  }

  lemma {:induction false} LessIsTotal(a: Text, b: Text)
    ensures a == b || Less(a, b) || Less(b, a)
  {
    if a != [] && b != [] && a[0] == b[0] {
      LessIsTotal(a[1..], b[1..]);
      assert a == [a[0]] + a[1..] && b == [b[0]] + b[1..];
    }
  }

  lemma GreaterWins(a: Text, b: Text, persistentA: bool, persistentB: bool) returns (w1: World)
    requires Precedes(Lower(b), Lower(a))
    ensures var w := World(Crossed(a, b, persistentA, Delivered), Crossed(b, a, persistentB, Delivered));
            var s := Step(true, Win(true));
            && CanStep(w, s) && w1 == DoStep(w, s)
            && w1.a.node.state == ROpen && w1.b.back == [CeaOk] && w1.b.node == w.b.node
  {
    LessMeans(Lower(b), Lower(a));
    hide Less, Precedes;
    var w := World(Crossed(a, b, persistentA, Delivered), Crossed(b, a, persistentB, Delivered));
    w1 := DoStep(w, Step(true, Win(true)));
  }

  lemma AnswerOpens(w1: World) returns (to: World)
    requires w1.a.node.state == ROpen && w1.b.back == [CeaOk] && w1.b.node.state == WaitReturns
    ensures var s := Step(false, TakeBack(true)); CanStep(w1, s) && to == DoStep(w1, s)
    ensures to.a.node.state == ROpen && to.b.node.state == IOpen
  {
    to := DoStep(w1, Step(false, TakeBack(true)));
  }

  /** The greater node wins, and its answer opens both: itself as the responder, the other as the initiator. */
  lemma GreaterOpensBoth(a: Text, b: Text, persistentA: bool, persistentB: bool) returns (to: World)
    requires Precedes(Lower(b), Lower(a))
    ensures RunWorld(World(Crossed(a, b, persistentA, Delivered), Crossed(b, a, persistentB, Delivered)),
                     [Step(true, Win(true)), Step(false, TakeBack(true))], to)
    ensures to.a.node.state == ROpen && to.b.node.state == IOpen
  {
    var w := World(Crossed(a, b, persistentA, Delivered), Crossed(b, a, persistentB, Delivered));
    var w1 := GreaterWins(a, b, persistentA, persistentB);
    to := AnswerOpens(w1);
    hide Less, Precedes, Crossed, DoStep, CanStep;
    OneStep(w, Step(true, Win(true)));
    OneStep(w1, Step(false, TakeBack(true)));
    RunThen(w, [Step(true, Win(true))], w1, [Step(false, TakeBack(true))], to);
    assert [Step(true, Win(true))] + [Step(false, TakeBack(true))]
           == [Step(true, Win(true)), Step(false, TakeBack(true))];
  }

  /** The crossing decided for the first node: it has answered, and the other has at most read the answer. */
  predicate Decided(w: World) {
    && w.a.node.state == ROpen && w.a.node.queue == [] && w.a.dial == Settled && w.a.cer == Delivered
    && w.a.hung && !w.a.shut && (forall i :: 0 <= i < |w.a.back| ==> w.a.back[i] == Eof)
    && w.b.node.queue == [] && w.b.dial == Settled && w.b.cer == Delivered && !w.b.hung && !w.b.granted
    && ((w.b.node.state == WaitReturns && w.b.back == [CeaOk]) || (w.b.node.state == IOpen && w.b.back == []))
  }

  /** The crossing lost for both: the first node has closed the two transports. */
  predicate Spoilt(w: World) { w.a.hung && w.a.shut }

  lemma OnlyTheWinnerMoves(a: Text, b: Text, persistentA: bool, persistentB: bool, s: Step)
    requires Precedes(Lower(b), Lower(a))
    requires CanStep(World(Crossed(a, b, persistentA, Delivered), Crossed(b, a, persistentB, Delivered)), s)
    ensures s.first && s.action.Win?
    ensures var to := DoStep(World(Crossed(a, b, persistentA, Delivered), Crossed(b, a, persistentB, Delivered)), s);
            if s.action.sendOk then Decided(to) else Spoilt(to)
  {
    LessMeans(Lower(b), Lower(a));
    LessIsStrict(Lower(a), Lower(b));
    hide Less, Precedes;
  }

  lemma EndsInROpen(me: Half, you: Half, sendOk: bool)
    requires me.node.state == ROpen && me.node.queue == []
    ensures React(me, you, IPeerDisc, sendOk) == (me.(node := me.node.(fx := SILENT)), you)
  {
    Nothing(you.back);
  }

  lemma ReadsTheAnswer(me: Half, you: Half, sendOk: bool)
    requires me.node.state == WaitReturns && me.node.queue == [] && me.back == [CeaOk]
    ensures var r := DoCollide(me, you, TakeBack(sendOk));
      && r.0.node.state == IOpen && r.0.node.queue == [] && r.0.back == [] && r.0.dial == me.dial && r.0.cer == me.cer
      && r.0.hung == me.hung && r.0.granted == me.granted
      && (r.1 == you || r.1 == you.(back := you.back + [Eof]))
  {
    Nothing(you.back);
    assert you.back + [] + [] + [Eof] == you.back + [Eof];
  }

  lemma DecidedStays(w: World, s: Step)
    requires Decided(w) && CanStep(w, s)
    ensures Decided(DoStep(w, s))
  {
    match s.action
    case TakeBack(sendOk) =>
      if s.first {
        assert w.a.back[0] == Eof;
        EndsInROpen(w.a, w.b, sendOk);
        hide React;
      } else {
        ReadsTheAnswer(w.b, w.a, sendOk);
        hide DoCollide;
      }
    case OwnEnd(sendOk) =>
      EndsInROpen(w.a, w.b, sendOk);
      hide React;
    case _ =>
  }

  lemma HungStays(me: Half, you: Half, a: Action)
    requires Can(me, you, a)
    ensures var r := DoCollide(me, you, a);
      && (me.hung ==> r.0.hung) && (me.shut ==> r.0.shut) && r.1.hung == you.hung && r.1.shut == you.shut
  {
    hide Handle;
  }

  lemma {:induction false} FateStays(w: World, steps: seq<Step>, to: World)
    requires RunWorld(w, steps, to)
    ensures Decided(w) ==> Decided(to)
    ensures Spoilt(w) ==> Spoilt(to)
    decreases |steps|
  {
    if steps != [] {
      var s := steps[0];
      if Decided(w) {
        DecidedStays(w, s);
      }
      if s.first {
        HungStays(w.a, w.b, s.action);
      } else {
        HungStays(w.b, w.a, s.action);
      }
      hide Decided, DoCollide, Can;
      FateStays(DoStep(w, s), steps[1..], to);
    }
  }

  /**
   * How a crossing ends when the first identity is the greater one, in every run: the first node is the
   * one that wins. If its answer could be written it is in R-Open from then on, and the other is in
   * I-Open or has that answer to read; if not, it never opens. The two are never open the other way round.
   */
  lemma GreaterEndsInROpen(a: Text, b: Text, persistentA: bool, persistentB: bool, steps: seq<Step>, to: World)
    requires Precedes(Lower(b), Lower(a)) && steps != []
    requires RunWorld(World(Crossed(a, b, persistentA, Delivered), Crossed(b, a, persistentB, Delivered)), steps, to)
    ensures steps[0].first && steps[0].action.Win?
    ensures if !steps[0].action.sendOk then !IsOpen(to.a)
            else to.a.node.state == ROpen
                 && (to.b.node.state == IOpen || (to.b.node.state == WaitReturns && to.b.back == [CeaOk]))
  {
    var w := World(Crossed(a, b, persistentA, Delivered), Crossed(b, a, persistentB, Delivered));
    var fresh0 := World(Fresh(a, persistentA), Fresh(b, persistentB));
    OnlyTheWinnerMoves(a, b, persistentA, persistentB, steps[0]);
    FateStays(DoStep(w, steps[0]), steps[1..], to);
    var before := RequestsCross(a, b, persistentA, persistentB);
    FreshKeeps(a, b, persistentA, persistentB);
    hide Crossed, Fresh, DoStep, CanStep, Precedes, Less, Channel, Reasons;
    RunThen(fresh0, before, w, steps, to);
    RunKeeps(fresh0, before + steps, to);
  }

  lemma TieStalls(a: Text, b: Text, persistentA: bool, persistentB: bool, s: Step)
    requires Lower(a) == Lower(b)
    ensures !CanStep(World(Crossed(a, b, persistentA, Delivered), Crossed(b, a, persistentB, Delivered)), s)
  {
    LessIsStrict(Lower(a), Lower(b));
  }

  /**
   * Once the requests have crossed, the nodes can get to be open together exactly when their identities
   * differ in more than letter case; otherwise no step is left but the timers.
   */
  lemma TieBreakExactly(a: Text, b: Text, persistentA: bool, persistentB: bool)
    ensures (exists steps, to ::
               && RunWorld(World(Crossed(a, b, persistentA, Delivered), Crossed(b, a, persistentB, Delivered)), steps,
                           to)
               && IsOpen(to.a) && IsOpen(to.b))
            <==> Lower(a) != Lower(b)
  {
    var w := World(Crossed(a, b, persistentA, Delivered), Crossed(b, a, persistentB, Delivered));
    if Lower(a) == Lower(b) {
      forall steps, to | RunWorld(w, steps, to)
        ensures !IsOpen(to.a)
      {
        if steps != [] {
          TieStalls(a, b, persistentA, persistentB, steps[0]);
        }
      }
    } else {
      LessIsTotal(Lower(a), Lower(b));
      LessMeans(Lower(a), Lower(b));
      LessMeans(Lower(b), Lower(a));
      if Precedes(Lower(b), Lower(a)) {
        var to := GreaterOpensBoth(a, b, persistentA, persistentB);
      } else {
        var to := GreaterOpensBoth(b, a, persistentB, persistentA);
        MirrorRun(World(w.b, w.a), [Step(true, Win(true)), Step(false, TakeBack(true))], to);
        assert IsOpen(World(to.b, to.a).a);
      }
    }
  }
}
