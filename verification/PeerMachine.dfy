/**
 * The peer state machine of section 5.6 of RFC 6733: one node, its two possible connections, its
 * two timers and its event queue. Every handler is a function of the node and the event; `sendOk`
 * says whether the message a handler sends could be written.
 */
module PeerMachine {
  import opened Bytes
  import opened Names

  datatype PeerState =
    | Closed | WaitConnAck | WaitICEA | WaitConnAckElect | WaitReturns | ROpen | IOpen | Closing | Suspect | Zombie

  /** A connection by its number. */
  type Conn = nat

  datatype Event =
    | Start | Stop | Timeout | WinElection | SendMessage
    | IRcvConnAck | IRcvConnNack
    // no host: an identity is missing; accepted: the policy's verdict
    | RConnCER(conn: Conn, host: Option<Text>, accepted: bool)
    | IRcvCEA(host: Option<Text>)                                // no host: not a success, or an identity is missing
    | IRcvNonCEA | IPeerDisc | RPeerDisc
    | IRcvMessage | RRcvMessage | IRcvDWR | RRcvDWR | IRcvDWA | RRcvDWA
    | IRcvDPR | RRcvDPR | IRcvDPA | RRcvDPA | IRcvCER | RRcvCER | RRcvCEA

  /** A timer that was never set or was stopped, one that runs, and one that ran out and was not cleared. */
  datatype Timer = Nil | Armed | Fired

  /** What a handler did to the outside. */
  datatype Effects = Effects(
    dial: bool, sentCER: bool, sentCEA: bool, rejected: bool, closedI: bool, closedR: bool, reconnect: bool)

  const SILENT := Effects(false, false, false, false, false, false, false)

  datatype Node = Node(
    state: PeerState,
    iConn: Option<Conn>,
    rConn: Option<Conn>,
    pendingCER: bool,
    timeout: Timer,
    watchdog: Timer,
    local: Text,                   // our identity
    remote: Text,                  // the identity the peer gave
    persistent: bool,
    queue: seq<Event>,
    fx: Effects)

  // ---------------------------------------------------------------- shared actions

  function To(n: Node, s: PeerState): Node { n.(state := s) }

  function StartTimeout(n: Node): Node { n.(timeout := Armed) }

  function StopTimeout(n: Node): Node { n.(timeout := Nil) }

  function StartWatchdog(n: Node): Node { n.(watchdog := Armed) }

  function StopWatchdog(n: Node): Node { n.(watchdog := Nil) }

  function ResetWatchdog(n: Node): Node { if n.watchdog == Nil then n else n.(watchdog := Armed) }

  function CloseI(n: Node): Node {
    if n.iConn.Some? then n.(iConn := None, fx := n.fx.(closedI := true)) else n
  }

  function CloseR(n: Node): Node {
    if n.rConn.Some? then n.(rConn := None, fx := n.fx.(closedR := true)) else n
  }

  function ForgetCER(n: Node): Node { n.(pendingCER := false) }

  function ErrorCleanup(n: Node): Node { ForgetCER(CloseR(CloseI(StopWatchdog(StopTimeout(n))))) }

  /** scheduleReconnect: a peer that is not persistent ends. */
  function Reconnect(n: Node): Node { if n.persistent then n.(fx := n.fx.(reconnect := true)) else To(n, Zombie) }

  function Reject(n: Node): Node { n.(fx := n.fx.(rejected := true)) }

  function SentCEA(n: Node): Node { n.(fx := n.fx.(sentCEA := true)) }

  /** Lexicographic order on octets. */
  predicate Less(a: Text, b: Text) {
    if b == [] then false
    else if a == [] then true
    else a[0] < b[0] || (a[0] == b[0] && Less(a[1..], b[1..]))
  }

  /** performElection: the node with the greater identity, letter case aside, issues Win-Election. */
  function Elect(n: Node): Node {
    if Less(Lower(n.remote), Lower(n.local)) then n.(queue := n.queue + [WinElection]) else n
  }

  /** `a` comes before `b`: a proper prefix of it, or smaller at the first octet in which they differ. */
  ghost predicate Precedes(a: Text, b: Text) { exists i: nat :: PrecedesAt(a, b, i) }

  ghost predicate PrecedesAt(a: Text, b: Text, i: nat) {
    i <= |a| && i < |b| && a[..i] == b[..i] && (i == |a| || a[i] < b[i])
  }

  lemma {:induction false} LessMeans(a: Text, b: Text)
    ensures Less(a, b) <==> Precedes(a, b)
  {
    if a == [] || b == [] {
      assert b != [] ==> PrecedesAt(a, b, 0);
    } else {
      LessMeans(a[1..], b[1..]);
      forall i: nat | PrecedesAt(a[1..], b[1..], i) && a[0] == b[0]
        ensures PrecedesAt(a, b, i + 1)
      {
        assert a[..i + 1] == [a[0]] + a[1..][..i] && b[..i + 1] == [b[0]] + b[1..][..i];
      }
      forall i: nat | PrecedesAt(a, b, i)
        ensures if i == 0 then a[0] < b[0] else a[0] == b[0] && PrecedesAt(a[1..], b[1..], i - 1)
      {
        if i > 0 {
          assert a[0] == a[..i][0] == b[0];
          assert a[1..][..i - 1] == a[..i][1..] == b[1..][..i - 1];
        }
      }
      assert a[0] < b[0] ==> PrecedesAt(a, b, 0);
    }
  }

  /**
   * Win-Election is queued exactly when the peer's identity in lower case is a proper prefix of ours in
   * lower case, or ours has the greater octet where they first differ. Nothing else changes.
   */
  lemma ElectExactly(n: Node)
    ensures Elect(n) == n.(queue := Elect(n).queue)
    ensures var (mine, theirs) := (Lower(n.local), Lower(n.remote));
            var wins := exists i: nat ::
              i <= |theirs| && i < |mine| && theirs[..i] == mine[..i] && (i == |theirs| || mine[i] > theirs[i]);
            Elect(n).queue == n.queue + if wins then [WinElection] else []
  {
    LessMeans(Lower(n.remote), Lower(n.local));
    var (mine, theirs) := (Lower(n.local), Lower(n.remote));
    assert forall i: nat :: PrecedesAt(theirs, mine, i) <==>
      i <= |theirs| && i < |mine| && theirs[..i] == mine[..i] && (i == |theirs| || mine[i] > theirs[i]);
  }

  /** Process-CER: the identity is recorded before the policy is asked. */
  function Identified(n: Node, ev: Event): Node
    requires ev.RConnCER?
  {
    if ev.host.Some? then n.(remote := ev.host.value) else n
  }

  predicate Acceptable(ev: Event)
    requires ev.RConnCER?
  {
    ev.host.Some? && ev.accepted
  }

  function OpenR(n: Node): Node { StartWatchdog(To(n, ROpen)) }

  function OpenI(n: Node): Node { StartWatchdog(To(n, IOpen)) }

  function FailClosed(n: Node): Node { To(ErrorCleanup(n), Closed) }

  function FailAndReconnect(n: Node): Node { Reconnect(FailClosed(n)) }

  /** A node that gave up its connections. */
  function Down(n: Node, s: PeerState, again: bool, w: Timer, cer: bool): Node {
    n.(state := s, iConn := None, rConn := None, pendingCER := cer, timeout := Nil, watchdog := w,
       fx := Effects(false, false, false, false, n.iConn.Some?, n.rConn.Some?, again))
  }

  lemma DownIs(n: Node)
    ensures FailClosed(n.(fx := SILENT)) == Down(n, Closed, false, Nil, false)
    ensures FailAndReconnect(n.(fx := SILENT))
            == Down(n, if n.persistent then Closed else Zombie, n.persistent, Nil, false)
    ensures FailClosed(StopTimeout(n.(fx := SILENT))) == Down(n, Closed, false, Nil, false)
    ensures FailAndReconnect(StopTimeout(n.(fx := SILENT)))
            == Down(n, if n.persistent then Closed else Zombie, n.persistent, Nil, false)
  {
  }

  // ---------------------------------------------------------------- the handlers, state by state

  function InClosed(n: Node, ev: Event, sendOk: bool): Node {
    match ev
    case Start =>
      var w := StartTimeout(To(n, WaitConnAck));
      w.(fx := w.fx.(dial := true))
    case RConnCER(conn, _, _) =>
      if n.rConn.Some? then Reject(n)
      else
        var a := Identified(n.(rConn := Some(conn)), ev);
        if !Acceptable(ev) then Reject(a)
        else if !sendOk then CloseR(a)
        else OpenR(SentCEA(a))
    case _ => n
  }

  function InWaitConnAck(n: Node, ev: Event, sendOk: bool): Node {
    match ev
    case IRcvConnAck =>
      if !sendOk then FailClosed(StopTimeout(n))
      else
        var w := StartTimeout(To(StopTimeout(n), WaitICEA));
        w.(fx := w.fx.(sentCER := true))
    case IRcvConnNack => FailAndReconnect(StopTimeout(n))
    case RConnCER(conn, _, _) =>
      if n.rConn.Some? then Reject(n)
      else
        var a := Identified(n.(rConn := Some(conn)), ev);
        if !Acceptable(ev) then CloseR(Reject(a))
        else To(a.(pendingCER := true), WaitConnAckElect)
    case Timeout => FailAndReconnect(n)
    case _ => n
  }

  function InWaitICEA(n: Node, ev: Event): Node {
    match ev
    case IRcvCEA(host) =>
      if host == None then FailClosed(StopTimeout(n))
      else OpenI(StopTimeout(n).(remote := host.value))
    case RConnCER(conn, _, _) =>
      if n.rConn.Some? then Reject(n)
      else
        var a := Identified(n.(rConn := Some(conn)), ev);
        if !Acceptable(ev) then CloseR(Reject(a))
        else Elect(To(a.(pendingCER := true), WaitReturns))
    case IPeerDisc => FailAndReconnect(n)
    case IRcvNonCEA => FailAndReconnect(n)
    case Timeout => FailAndReconnect(n)
    case _ => n
  }

  /** R-Snd-CEA for the request kept, then R-Open. */
  function AnswerPending(n: Node, sendOk: bool): Node {
    if !sendOk then To(CloseR(n), Closed) else OpenR(ForgetCER(SentCEA(n)))
  }

  function InWaitConnAckElect(n: Node, ev: Event, sendOk: bool): Node {
    match ev
    case IRcvConnAck =>
      if !sendOk then FailClosed(StopTimeout(n))
      else
        var w := StartTimeout(To(StopTimeout(n), WaitReturns));
        Elect(w.(fx := w.fx.(sentCER := true)))
    case IRcvConnNack => AnswerPending(StopTimeout(n), sendOk)
    case RPeerDisc => To(ForgetCER(CloseR(n)), WaitConnAck)
    case RConnCER(_, _, _) => Reject(n)
    case Timeout => FailAndReconnect(n)
    case _ => n
  }

  function InWaitReturns(n: Node, ev: Event, sendOk: bool): Node {
    match ev
    case WinElection => AnswerPending(CloseI(StopTimeout(n)), sendOk)
    case IPeerDisc => AnswerPending(CloseI(StopTimeout(n)), sendOk)
    case IRcvCEA(host) =>
      var d := ForgetCER(CloseR(StopTimeout(n)));
      if host == None then To(CloseI(d), Closed) else OpenI(d.(remote := host.value))
    case RPeerDisc => To(ForgetCER(CloseR(n)), WaitICEA)
    case RConnCER(_, _, _) => Reject(n)
    case Timeout => FailAndReconnect(n)
    case _ => n
  }

  function InROpen(n: Node, ev: Event): Node {
    match ev
    case RRcvMessage => ResetWatchdog(n)
    case RRcvDWR => ResetWatchdog(n)
    case RRcvDWA =>
      var r := ResetWatchdog(n);
      if r.state == Suspect then To(r, ROpen) else r
    case RConnCER(_, _, _) => Reject(n)
    case Stop => StartTimeout(To(StopWatchdog(n), Closing))
    case RRcvDPR => To(StopWatchdog(n), Closing)
    case RPeerDisc => FailAndReconnect(n)
    case Timeout => StartWatchdog(To(n, Suspect))
    case _ => n
  }

  function InIOpen(n: Node, ev: Event): Node {
    match ev
    case IRcvMessage => ResetWatchdog(n)
    case IRcvDWR => ResetWatchdog(n)
    case IRcvDWA =>
      var r := ResetWatchdog(n);
      if r.state == Suspect then To(r, IOpen) else r
    case RConnCER(_, _, _) => Reject(n)
    case Stop => StartTimeout(To(StopWatchdog(n), Closing))
    case IRcvDPR => To(StopWatchdog(n), Closing)
    case IPeerDisc => FailAndReconnect(n)
    case Timeout => StartWatchdog(To(n, Suspect))
    case _ => n
  }

  predicate Alive(ev: Event) { ev.IRcvDWA? || ev.RRcvDWA? || ev.IRcvMessage? || ev.RRcvMessage? }

  function InSuspect(n: Node, ev: Event): Node {
    if Alive(ev) then ResetWatchdog(To(n, if n.iConn.Some? then IOpen else ROpen))
    else if ev.Timeout? || ev.IPeerDisc? || ev.RPeerDisc? then FailAndReconnect(n)
    else n
  }

  function InClosing(n: Node, ev: Event): Node {
    if ev.IRcvDPA? || ev.RRcvDPA? || ev.Timeout? || ev.IPeerDisc? || ev.RPeerDisc? then FailClosed(n) else n
  }

  /** handleEvent. */
  function Handle(n: Node, ev: Event, sendOk: bool): Node {
    var q := n.(fx := SILENT);
    match n.state
    case Closed => InClosed(q, ev, sendOk)
    case WaitConnAck => InWaitConnAck(q, ev, sendOk)
    case WaitICEA => InWaitICEA(q, ev)
    case WaitConnAckElect => InWaitConnAckElect(q, ev, sendOk)
    case WaitReturns => InWaitReturns(q, ev, sendOk)
    case ROpen => InROpen(q, ev)
    case IOpen => InIOpen(q, ev)
    case Closing => InClosing(q, ev)
    case Suspect => InSuspect(q, ev)
    case Zombie => q
  }

  // ---------------------------------------------------------------- one node and its surroundings

  datatype Action =
    | Next(sendOk: bool)           // the state machine takes the next event
    | Arrive(ev: Event)            // a read loop, the dialler, a listener or the operator queues an event
    | Connect(conn: Conn)          // a dial succeeds, at whatever moment
    | TimeoutFires
    | WatchdogFires

  predicate Enabled(n: Node, a: Action) {
    match a
    case Next(_) => n.queue != [] && n.state != Zombie
    case Arrive(_) => true
    case Connect(_) => true
    case TimeoutFires => n.timeout == Armed
    case WatchdogFires => n.watchdog == Armed
  }

  function Do(n: Node, a: Action): Node
    requires Enabled(n, a)
  {
    match a
    case Next(sendOk) => Handle(n.(queue := n.queue[1..]), n.queue[0], sendOk)
    case Arrive(ev) => n.(queue := n.queue + [ev])
    case Connect(conn) => n.(iConn := Some(conn), queue := n.queue + [IRcvConnAck])
    case TimeoutFires => n.(timeout := Fired, queue := n.queue + [Timeout])
    case WatchdogFires => n.(watchdog := Fired, queue := n.queue + [Timeout])
  }

  function Initial(local: Text, persistent: bool): Node {
    Node(Closed, None, None, false, Nil, Nil, local, [], persistent, [], SILENT)
  }

  ghost predicate Run(n: Node, actions: seq<Action>, to: Node)
    decreases |actions|
  {
    if actions == [] then to == n
    else Enabled(n, actions[0]) && Run(Do(n, actions[0]), actions[1..], to)
  }

  predicate Waiting(s: PeerState) { s == WaitConnAck || s == WaitICEA || s == WaitConnAckElect || s == WaitReturns }

  predicate Open(s: PeerState) { s == IOpen || s == ROpen || s == Suspect }

  /** A state that waits for the peer has something scheduled that will end the wait. */
  predicate NotStranded(n: Node) {
    && (Waiting(n.state) ==> n.timeout == Armed || Timeout in n.queue)
    && (Open(n.state) ==> n.watchdog != Nil && (n.watchdog == Armed || Timeout in n.queue))
  }

  /** Before handling: the timer of the state runs, or a timeout is queued behind the event, or is the event. */
  predicate Timed(n: Node, ev: Event) {
    && (Waiting(n.state) && !ev.Timeout? ==> n.timeout == Armed || Timeout in n.queue)
    && (Open(n.state) ==> n.watchdog != Nil)
    && (Open(n.state) && !ev.Timeout? ==> n.watchdog == Armed || Timeout in n.queue)
  }

  lemma ElectKeeps(n: Node)
    ensures Timeout in n.queue ==> Timeout in Elect(n).queue
    ensures Elect(n) == n.(queue := Elect(n).queue)
  {
    hide Less;
  }

  lemma ClosedTimed(n: Node, ev: Event, sendOk: bool)
    requires n.state == Closed && Timed(n, ev)
    ensures NotStranded(InClosed(n, ev, sendOk))
  {
  }

  lemma WaitConnAckRequestTimed(n: Node, ev: Event, sendOk: bool)
    requires n.state == WaitConnAck && Timed(n, ev)
    requires ev.RConnCER?
    ensures NotStranded(InWaitConnAck(n, ev, sendOk))
  {
  }

  lemma WaitConnAckOtherTimed(n: Node, ev: Event, sendOk: bool)
    requires n.state == WaitConnAck && Timed(n, ev)
    requires !ev.RConnCER?
    ensures NotStranded(InWaitConnAck(n, ev, sendOk))
  {
  }

  lemma WaitConnAckTimed(n: Node, ev: Event, sendOk: bool)
    requires n.state == WaitConnAck && Timed(n, ev)
    ensures NotStranded(InWaitConnAck(n, ev, sendOk))
  {
    if ev.RConnCER? {
      WaitConnAckRequestTimed(n, ev, sendOk);
    } else {
      WaitConnAckOtherTimed(n, ev, sendOk);
    }
    hide InWaitConnAck, NotStranded;
  }

  lemma WaitICEATimed(n: Node, ev: Event)
    requires n.state == WaitICEA && Timed(n, ev)
    ensures NotStranded(InWaitICEA(n, ev))
  {
    if ev.RConnCER? {
      RequestTimed(n, ev);
      hide InWaitICEA, NotStranded;
    } else {
      hide Elect, Identified;
    }
  }

  lemma RequestTimed(n: Node, ev: Event)
    requires n.state == WaitICEA && Timed(n, ev) && ev.RConnCER?
    ensures NotStranded(InWaitICEA(n, ev))
  {
    ElectKeeps(To(Identified(n.(rConn := Some(ev.conn)), ev).(pendingCER := true), WaitReturns));
    hide Elect, FailClosed, FailAndReconnect, OpenI, StopTimeout;
  }

  lemma WaitConnAckElectAckTimed(n: Node, ev: Event, sendOk: bool)
    requires n.state == WaitConnAckElect && Timed(n, ev)
    requires ev.IRcvConnAck?
    ensures NotStranded(InWaitConnAckElect(n, ev, sendOk))
  {
    var w := StartTimeout(To(StopTimeout(n), WaitReturns));
    ElectKeeps(w.(fx := w.fx.(sentCER := true)));
    hide Elect;
  }

  lemma WaitConnAckElectOtherTimed(n: Node, ev: Event, sendOk: bool)
    requires n.state == WaitConnAckElect && Timed(n, ev)
    requires !ev.IRcvConnAck?
    ensures NotStranded(InWaitConnAckElect(n, ev, sendOk))
  {
    hide Elect;
  }

  lemma WaitConnAckElectTimed(n: Node, ev: Event, sendOk: bool)
    requires n.state == WaitConnAckElect && Timed(n, ev)
    ensures NotStranded(InWaitConnAckElect(n, ev, sendOk))
  {
    if ev.IRcvConnAck? {
      WaitConnAckElectAckTimed(n, ev, sendOk);
    } else {
      WaitConnAckElectOtherTimed(n, ev, sendOk);
    }
    hide InWaitConnAckElect, NotStranded;
  }

  lemma WaitReturnsTimed(n: Node, ev: Event, sendOk: bool)
    requires n.state == WaitReturns && Timed(n, ev)
    ensures NotStranded(InWaitReturns(n, ev, sendOk))
  {
  }

  lemma ROpenTimed(n: Node, ev: Event)
    requires n.state == ROpen && Timed(n, ev)
    ensures NotStranded(InROpen(n, ev))
  {
  }

  lemma IOpenTimed(n: Node, ev: Event)
    requires n.state == IOpen && Timed(n, ev)
    ensures NotStranded(InIOpen(n, ev))
  {
  }

  lemma SuspectTimed(n: Node, ev: Event)
    requires n.state == Suspect && Timed(n, ev)
    ensures NotStranded(InSuspect(n, ev))
  {
  }

  lemma ClosingTimed(n: Node, ev: Event)
    requires n.state == Closing && Timed(n, ev)
    ensures NotStranded(InClosing(n, ev))
  {
  }

  /** Handling an event other than a timeout takes no timeout away; handling a timeout ends the wait or rearms. */
  lemma HandleNotStranded(n: Node, ev: Event, sendOk: bool)
    requires Timed(n, ev)
    ensures NotStranded(Handle(n, ev, sendOk))
  {
    hide InClosed, InWaitConnAck, InWaitICEA, InWaitConnAckElect, InWaitReturns, InROpen, InIOpen, InSuspect, InClosing;
    var q := n.(fx := SILENT);
    match n.state {
      case Closed => ClosedTimed(q, ev, sendOk);
      case WaitConnAck => WaitConnAckTimed(q, ev, sendOk);
      case WaitICEA => WaitICEATimed(q, ev);
      case WaitConnAckElect => WaitConnAckElectTimed(q, ev, sendOk);
      case WaitReturns => WaitReturnsTimed(q, ev, sendOk);
      case ROpen => ROpenTimed(q, ev);
      case IOpen => IOpenTimed(q, ev);
      case Suspect => SuspectTimed(q, ev);
      case Closing => ClosingTimed(q, ev);
      case Zombie =>
    }
  }

  lemma QueueGrows(q: seq<Event>, ev: Event)
    ensures Timeout in q ==> Timeout in q + [ev]
    ensures ev.Timeout? ==> Timeout in q + [ev]
  {
    assert (q + [ev])[|q|] == ev;
  }

  lemma StepNotStranded(n: Node, a: Action)
    requires NotStranded(n) && Enabled(n, a)
    ensures NotStranded(Do(n, a))
  {
    hide Handle;
    match a {
      case Next(sendOk) =>
        var rest := n.queue[1..];
        assert n.queue == [n.queue[0]] + rest;
        HandleNotStranded(n.(queue := rest), n.queue[0], sendOk);
      case Arrive(ev) => QueueGrows(n.queue, ev);
      case Connect(conn) => QueueGrows(n.queue, IRcvConnAck);
      case _ => QueueGrows(n.queue, Timeout);
    }
  }

  /** No peer is stranded, in any run. */
  lemma {:induction false} NobodyIsStranded(n: Node, actions: seq<Action>, to: Node)
    requires NotStranded(n) && Run(n, actions, to)
    ensures NotStranded(to)
    decreases |actions|
  {
    hide Do, NotStranded;
    if actions != [] {
      StepNotStranded(n, actions[0]);
      NobodyIsStranded(Do(n, actions[0]), actions[1..], to);
    }
  }

  lemma FromTheStart(local: Text, persistent: bool, actions: seq<Action>, to: Node)
    requires Run(Initial(local, persistent), actions, to)
    ensures NotStranded(to)
  {
    NobodyIsStranded(Initial(local, persistent), actions, to);
  }

  /** Nothing is held any more. */
  predicate Retired(n: Node) {
    && (n.state == Closed || n.state == Zombie) && n.iConn == None && n.rConn == None && !n.pendingCER
    && n.timeout == Nil && n.watchdog == Nil
  }

  /** A wait with nothing else to handle is ended by its timer. */
  lemma QuietWaitEnds(n: Node)
    requires NotStranded(n) && Waiting(n.state) && n.queue == []
    ensures exists to :: Run(n, [TimeoutFires, Next(true)], to) && Retired(to)
  {
    var a := Do(n, TimeoutFires);
    assert a.queue == [Timeout] && a.queue[1..] == [];
    TimeoutRetires(a.(queue := []), true);
    hide Handle, Retired;
    TwoSteps(n, TimeoutFires, Next(true));
    assert Run(n, [TimeoutFires, Next(true)], Do(a, Next(true)));
  }

  lemma TwoSteps(n: Node, x: Action, y: Action)
    requires Enabled(n, x) && Enabled(Do(n, x), y)
    ensures Run(n, [x, y], Do(Do(n, x), y))
  {
    hide Do, Enabled;
    assert [x, y][1..] == [y] && [y][1..] == [];
    assert Run(Do(Do(n, x), y), [], Do(Do(n, x), y));
    assert Run(Do(n, x), [y], Do(Do(n, x), y));
  }

  lemma QuietSuspectEnds(n: Node) returns (to: Node)
    requires n.state == Suspect && n.watchdog == Armed && n.queue == []
    ensures Run(n, [WatchdogFires, Next(true)], to) && Retired(to)
  {
    to := Do(Do(n, WatchdogFires), Next(true));
    TwoSteps(n, WatchdogFires, Next(true));
    hide Run;
  }

  lemma QuietOpenSuspects(n: Node) returns (mid: Node)
    requires NotStranded(n) && (n.state == IOpen || n.state == ROpen) && n.queue == []
    ensures Run(n, [WatchdogFires, Next(true)], mid) && mid.state == Suspect && mid.watchdog == Armed && mid.queue == []
  {
    mid := Do(Do(n, WatchdogFires), Next(true));
    TwoSteps(n, WatchdogFires, Next(true));
    hide Run;
  }

  /** An open connection on which nothing comes any more is retired by two timeouts in a row. */
  lemma QuietOpenEnds(n: Node)
    requires NotStranded(n) && (n.state == IOpen || n.state == ROpen) && n.queue == []
    ensures exists mid, to ::
      && Run(n, [WatchdogFires, Next(true)], mid) && mid.state == Suspect
      && Run(mid, [WatchdogFires, Next(true)], to) && Retired(to)
  {
    var mid := QuietOpenSuspects(n);
    var to := QuietSuspectEnds(mid);
    hide Run, Retired;
  }

  /** Two consecutive timeouts retire an open connection, whatever else is queued behind them. */
  lemma TwoTimeoutsRetire(n: Node, sendOk: bool, sendOk': bool)
    requires n.state == IOpen || n.state == ROpen
    ensures Handle(n, Timeout, sendOk).state == Suspect
    ensures Retired(Handle(Handle(n, Timeout, sendOk), Timeout, sendOk'))
  {
  }

  lemma GivingUpRetires(n: Node)
    ensures Retired(FailClosed(n)) && FailClosed(n).persistent == n.persistent
    ensures Retired(FailAndReconnect(n)) && (n.persistent ==> FailAndReconnect(n).fx.reconnect)
  {
  }

  /** In every state that waits, doubts or closes, a timeout lets go of everything. */
  lemma TimeoutRetires(n: Node, sendOk: bool)
    requires Waiting(n.state) || n.state == Suspect || n.state == Closing
    ensures Retired(Handle(n, Timeout, sendOk))
            && (n.state != Closing && n.persistent ==> Handle(n, Timeout, sendOk).fx.reconnect)
  {
    GivingUpRetires(n.(fx := SILENT));
    hide Retired, FailClosed, FailAndReconnect;
  }

  // ---------------------------------------------------------------- connections are accounted for

  /** A connection held stays or is closed; nothing is dropped unclosed, nor closed unheld. The responder
      connection of a request may take a free place. */
  predicate Accounted(n: Node, ev: Event, q: Node) {
    && (if q.fx.closedI then n.iConn.Some? && q.iConn == None else q.iConn == n.iConn)
    && var held := if n.rConn == None && ev.RConnCER? then Some(ev.conn) else n.rConn;
       if q.fx.closedR then held.Some? && q.rConn == None else q.rConn == n.rConn || q.rConn == held
  }

  lemma GivingUpAccounts(n: Node, ev: Event)
    requires n.fx == SILENT
    ensures Accounted(n, ev, FailClosed(n)) && Accounted(n, ev, FailAndReconnect(n))
    ensures Accounted(n, ev, FailClosed(StopTimeout(n))) && Accounted(n, ev, FailAndReconnect(StopTimeout(n)))
  {
  }

  lemma ClosedRequestAccounts(n: Node, ev: Event, sendOk: bool)
    requires n.state == Closed && n.fx == SILENT
    requires ev.RConnCER?
    ensures Accounted(n, ev, InClosed(n, ev, sendOk))
  {
    GivingUpAccounts(n, ev);
    hide FailClosed, FailAndReconnect, Less;
  }

  lemma ClosedOtherAccounts(n: Node, ev: Event, sendOk: bool)
    requires n.state == Closed && n.fx == SILENT
    requires !ev.RConnCER?
    ensures Accounted(n, ev, InClosed(n, ev, sendOk))
  {
    GivingUpAccounts(n, ev);
    hide FailClosed, FailAndReconnect, Less;
  }

  lemma ClosedAccounts(n: Node, ev: Event, sendOk: bool)
    requires n.state == Closed && n.fx == SILENT
    ensures Accounted(n, ev, InClosed(n, ev, sendOk))
  {
    if ev.RConnCER? {
      ClosedRequestAccounts(n, ev, sendOk);
    } else {
      ClosedOtherAccounts(n, ev, sendOk);
    }
    hide InClosed, Accounted;
  }

  lemma WaitConnAckRequestAccounts(n: Node, ev: Event, sendOk: bool)
    requires n.state == WaitConnAck && n.fx == SILENT
    requires ev.RConnCER?
    ensures Accounted(n, ev, InWaitConnAck(n, ev, sendOk))
  {
    GivingUpAccounts(n, ev);
    hide FailClosed, FailAndReconnect, Less;
  }

  lemma WaitConnAckOtherAccounts(n: Node, ev: Event, sendOk: bool)
    requires n.state == WaitConnAck && n.fx == SILENT
    requires !ev.RConnCER?
    ensures Accounted(n, ev, InWaitConnAck(n, ev, sendOk))
  {
    GivingUpAccounts(n, ev);
    hide FailClosed, FailAndReconnect, Less;
  }

  lemma WaitConnAckAccounts(n: Node, ev: Event, sendOk: bool)
    requires n.state == WaitConnAck && n.fx == SILENT
    ensures Accounted(n, ev, InWaitConnAck(n, ev, sendOk))
  {
    if ev.RConnCER? {
      WaitConnAckRequestAccounts(n, ev, sendOk);
    } else {
      WaitConnAckOtherAccounts(n, ev, sendOk);
    }
    hide InWaitConnAck, Accounted;
  }

  lemma WaitICEAAccounts(n: Node, ev: Event)
    requires n.state == WaitICEA && n.fx == SILENT
    ensures Accounted(n, ev, InWaitICEA(n, ev))
  {
    if ev.RConnCER? {
      RequestAccounts(n, ev);
      hide InWaitICEA, Accounted;
    } else {
      GivingUpAccounts(n, ev);
      hide FailClosed, FailAndReconnect, Elect, Identified;
    }
  }

  lemma RequestAccounts(n: Node, ev: Event)
    requires n.fx == SILENT && ev.RConnCER?
    ensures Accounted(n, ev, InWaitICEA(n, ev))
  {
    ElectKeeps(To(Identified(n.(rConn := Some(ev.conn)), ev).(pendingCER := true), WaitReturns));
    hide Elect, FailClosed, FailAndReconnect, OpenI, StopTimeout;
  }

  lemma WaitConnAckElectAckAccounts(n: Node, ev: Event, sendOk: bool)
    requires n.state == WaitConnAckElect && n.fx == SILENT
    requires ev.IRcvConnAck? || ev.IRcvConnNack?
    ensures Accounted(n, ev, InWaitConnAckElect(n, ev, sendOk))
  {
    GivingUpAccounts(n, ev);
    hide FailClosed, FailAndReconnect, Less;
  }

  lemma WaitConnAckElectOtherAccounts(n: Node, ev: Event, sendOk: bool)
    requires n.state == WaitConnAckElect && n.fx == SILENT
    requires !(ev.IRcvConnAck? || ev.IRcvConnNack?)
    ensures Accounted(n, ev, InWaitConnAckElect(n, ev, sendOk))
  {
    GivingUpAccounts(n, ev);
    hide FailClosed, FailAndReconnect, Less;
  }

  lemma WaitConnAckElectAccounts(n: Node, ev: Event, sendOk: bool)
    requires n.state == WaitConnAckElect && n.fx == SILENT
    ensures Accounted(n, ev, InWaitConnAckElect(n, ev, sendOk))
  {
    if ev.IRcvConnAck? || ev.IRcvConnNack? {
      WaitConnAckElectAckAccounts(n, ev, sendOk);
    } else {
      WaitConnAckElectOtherAccounts(n, ev, sendOk);
    }
    hide InWaitConnAckElect, Accounted;
  }

  lemma WaitReturnsWinAccounts(n: Node, ev: Event, sendOk: bool)
    requires n.state == WaitReturns && n.fx == SILENT
    requires ev.WinElection? || ev.IPeerDisc?
    ensures Accounted(n, ev, InWaitReturns(n, ev, sendOk))
  {
    GivingUpAccounts(n, ev);
    hide FailClosed, FailAndReconnect, Less;
  }

  lemma WaitReturnsAnswerAccounts(n: Node, ev: Event, sendOk: bool)
    requires n.state == WaitReturns && n.fx == SILENT
    requires ev.IRcvCEA?
    ensures Accounted(n, ev, InWaitReturns(n, ev, sendOk))
  {
    GivingUpAccounts(n, ev);
    hide FailClosed, FailAndReconnect, Less;
  }

  lemma WaitReturnsOtherAccounts(n: Node, ev: Event, sendOk: bool)
    requires n.state == WaitReturns && n.fx == SILENT
    requires !(ev.WinElection? || ev.IPeerDisc? || ev.IRcvCEA?)
    ensures Accounted(n, ev, InWaitReturns(n, ev, sendOk))
  {
    GivingUpAccounts(n, ev);
    hide FailClosed, FailAndReconnect, Less;
  }

  lemma WaitReturnsAccounts(n: Node, ev: Event, sendOk: bool)
    requires n.state == WaitReturns && n.fx == SILENT
    ensures Accounted(n, ev, InWaitReturns(n, ev, sendOk))
  {
    if ev.WinElection? || ev.IPeerDisc? {
      WaitReturnsWinAccounts(n, ev, sendOk);
    } else if ev.IRcvCEA? {
      WaitReturnsAnswerAccounts(n, ev, sendOk);
    } else {
      WaitReturnsOtherAccounts(n, ev, sendOk);
    }
    hide InWaitReturns, Accounted;
  }

  lemma ROpenTimeoutAccounts(n: Node, ev: Event)
    requires n.state == ROpen && n.fx == SILENT
    requires ev.Timeout?
    ensures Accounted(n, ev, InROpen(n, ev))
  {
    GivingUpAccounts(n, ev);
    hide FailClosed, FailAndReconnect, Less;
  }

  lemma ROpenWatchAccounts(n: Node, ev: Event)
    requires n.state == ROpen && n.fx == SILENT
    requires ev.RRcvMessage? || ev.RRcvDWR? || ev.RRcvDWA?
    ensures Accounted(n, ev, InROpen(n, ev))
  {
    GivingUpAccounts(n, ev);
    hide FailClosed, FailAndReconnect, Less;
  }

  lemma ROpenOtherAccounts(n: Node, ev: Event)
    requires n.state == ROpen && n.fx == SILENT
    requires !(ev.RRcvMessage? || ev.RRcvDWR? || ev.RRcvDWA? || ev.Timeout?)
    ensures Accounted(n, ev, InROpen(n, ev))
  {
    GivingUpAccounts(n, ev);
    hide FailClosed, FailAndReconnect, Less;
  }

  lemma ROpenAccounts(n: Node, ev: Event)
    requires n.state == ROpen && n.fx == SILENT
    ensures Accounted(n, ev, InROpen(n, ev))
  {
    if ev.RRcvMessage? || ev.RRcvDWR? || ev.RRcvDWA? {
      ROpenWatchAccounts(n, ev);
    } else if ev.Timeout? {
      ROpenTimeoutAccounts(n, ev);
    } else {
      ROpenOtherAccounts(n, ev);
    }
    hide InROpen, Accounted;
  }

  lemma IOpenTimeoutAccounts(n: Node, ev: Event)
    requires n.state == IOpen && n.fx == SILENT
    requires ev.Timeout?
    ensures Accounted(n, ev, InIOpen(n, ev))
  {
    GivingUpAccounts(n, ev);
    hide FailClosed, FailAndReconnect, Less;
  }

  lemma IOpenWatchAccounts(n: Node, ev: Event)
    requires n.state == IOpen && n.fx == SILENT
    requires ev.IRcvMessage? || ev.IRcvDWR? || ev.IRcvDWA?
    ensures Accounted(n, ev, InIOpen(n, ev))
  {
    GivingUpAccounts(n, ev);
    hide FailClosed, FailAndReconnect, Less;
  }

  lemma IOpenOtherAccounts(n: Node, ev: Event)
    requires n.state == IOpen && n.fx == SILENT
    requires !(ev.IRcvMessage? || ev.IRcvDWR? || ev.IRcvDWA? || ev.Timeout?)
    ensures Accounted(n, ev, InIOpen(n, ev))
  {
    GivingUpAccounts(n, ev);
    hide FailClosed, FailAndReconnect, Less;
  }

  lemma IOpenAccounts(n: Node, ev: Event)
    requires n.state == IOpen && n.fx == SILENT
    ensures Accounted(n, ev, InIOpen(n, ev))
  {
    if ev.IRcvMessage? || ev.IRcvDWR? || ev.IRcvDWA? {
      IOpenWatchAccounts(n, ev);
    } else if ev.Timeout? {
      IOpenTimeoutAccounts(n, ev);
    } else {
      IOpenOtherAccounts(n, ev);
    }
    hide InIOpen, Accounted;
  }

  lemma SuspectAccounts(n: Node, ev: Event)
    requires n.state == Suspect && n.fx == SILENT
    ensures Accounted(n, ev, InSuspect(n, ev))
  {
    GivingUpAccounts(n, ev);
    hide FailClosed, FailAndReconnect, Less;
  }

  lemma ClosingAccounts(n: Node, ev: Event)
    requires n.state == Closing && n.fx == SILENT
    ensures Accounted(n, ev, InClosing(n, ev))
  {
    GivingUpAccounts(n, ev);
    hide FailClosed, FailAndReconnect, Less;
  }

  lemma SilentAccounts(n: Node, ev: Event, q: Node)
    ensures Accounted(n.(fx := SILENT), ev, q) ==> Accounted(n, ev, q)
    ensures Accounted(n, ev, n.(fx := SILENT))
  {
  }

  /** No handler loses a connection or closes one it does not hold. */
  lemma ConnectionsAccounted(n: Node, ev: Event, sendOk: bool)
    ensures Accounted(n, ev, Handle(n, ev, sendOk))
  {
    hide InClosed, InWaitConnAck, InWaitICEA, InWaitConnAckElect, InWaitReturns, InROpen, InIOpen, InSuspect,
         InClosing, Accounted;
    var q := n.(fx := SILENT);
    SilentAccounts(n, ev, Handle(n, ev, sendOk));
    match n.state {
      case Closed => ClosedAccounts(q, ev, sendOk);
      case WaitConnAck => WaitConnAckAccounts(q, ev, sendOk);
      case WaitICEA => WaitICEAAccounts(q, ev);
      case WaitConnAckElect => WaitConnAckElectAccounts(q, ev, sendOk);
      case WaitReturns => WaitReturnsAccounts(q, ev, sendOk);
      case ROpen => ROpenAccounts(q, ev);
      case IOpen => IOpenAccounts(q, ev);
      case Suspect => SuspectAccounts(q, ev);
      case Closing => ClosingAccounts(q, ev);
      case Zombie =>
    }
  }

  /** A connection that comes with a request is kept, rejected or closed exactly outside these three states. */
  lemma RequestIsDisposedOf(n: Node, ev: Event, sendOk: bool)
    requires ev.RConnCER?
    ensures var q := Handle(n, ev, sendOk);
      (n.rConn == None && q.rConn == Some(ev.conn)) || q.fx.rejected || q.fx.closedR
      <==> n.state != Suspect && n.state != Closing && n.state != Zombie
  {
  }

  // ---------------------------------------------------------------- a rejected request blocks later ones

  /** Only these events can free the responder connection of a closed node. */
  predicate Blocked(n: Node) { n.state == Closed && n.rConn.Some? }

  /**
   * A closed node that turns a CER away keeps its connection on record, and from then on refuses
   * every CER as long as it stays closed; one that accepts opens.
   */
  lemma RejectedRequestBlocks(n: Node, ev: Event, sendOk: bool, later: Event, sendOk': bool)
    requires n.state == Closed && n.rConn == None && ev.RConnCER?
    ensures Blocked(Handle(n, ev, sendOk)) <==> !Acceptable(ev)
    ensures Handle(n, ev, sendOk).state == ROpen <==> Acceptable(ev) && sendOk
    ensures !Acceptable(ev) && later.RConnCER? ==>
      var m := Handle(Handle(n, ev, sendOk), later, sendOk'); Blocked(m) && m.fx.rejected && !m.fx.sentCEA
  {
  }

  /** Nothing but a new start leads out of that. */
  lemma OnlyStartUnblocks(n: Node, ev: Event, sendOk: bool)
    requires Blocked(n)
    ensures Blocked(Handle(n, ev, sendOk)) <==> !ev.Start?
  {
  }
}
