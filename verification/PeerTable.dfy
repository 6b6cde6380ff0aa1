/**
 * The table of section 5.6 of RFC 6733, and how far the handlers of `PeerMachine` follow it. The table
 * is written from the rows alone; the watchdog rows of the open states and of Suspect come on top.
 */
module PeerTable {
  import opened Bytes
  import opened Names
  import opened PeerMachine

  /** The next state of a row and the actions that can be seen. */
  datatype Row = Row(
    next: PeerState,
    nameonly sndConnReq: bool := false,
    nameonly sndCER: bool := false,
    nameonly sndCEA: bool := false,
    nameonly reject: bool := false,
    nameonly discI: bool := false,
    nameonly discR: bool := false,
    nameonly elect: bool := false)

  function TableRow(s: PeerState, ev: Event): Option<Row> {
    match s
    case Closed => (
      match ev
      case Start => Some(Row(WaitConnAck, sndConnReq := true))
      case RConnCER(_, _, _) => Some(Row(ROpen, sndCEA := true))
      case _ => None)
    case WaitConnAck => (
      match ev
      case IRcvConnAck => Some(Row(WaitICEA, sndCER := true))
      case IRcvConnNack => Some(Row(Closed))
      case RConnCER(_, _, _) => Some(Row(WaitConnAckElect))
      case Timeout => Some(Row(Closed))
      case _ => None)
    case WaitICEA => (
      match ev
      case IRcvCEA(_) => Some(Row(IOpen))
      case RConnCER(_, _, _) => Some(Row(WaitReturns, elect := true))
      case IPeerDisc => Some(Row(Closed, discI := true))
      case IRcvNonCEA => Some(Row(Closed))
      case Timeout => Some(Row(Closed))
      case _ => None)
    case WaitConnAckElect => (
      match ev
      case IRcvConnAck => Some(Row(WaitReturns, sndCER := true, elect := true))
      case IRcvConnNack => Some(Row(ROpen, sndCEA := true))
      case RPeerDisc => Some(Row(WaitConnAck, discR := true))
      case RConnCER(_, _, _) => Some(Row(WaitConnAckElect, reject := true))
      case Timeout => Some(Row(Closed))
      case _ => None)
    case WaitReturns => (
      match ev
      case WinElection => Some(Row(ROpen, sndCEA := true, discI := true))
      case IPeerDisc => Some(Row(ROpen, sndCEA := true, discI := true))
      case IRcvCEA(_) => Some(Row(IOpen, discR := true))
      case RPeerDisc => Some(Row(WaitICEA, discR := true))
      case RConnCER(_, _, _) => Some(Row(WaitReturns, reject := true))
      case Timeout => Some(Row(Closed))
      case _ => None)
    case ROpen => (
      match ev
      case SendMessage => Some(Row(ROpen))
      case RRcvMessage => Some(Row(ROpen))
      case RRcvDWR => Some(Row(ROpen))
      case RRcvDWA => Some(Row(ROpen))
      case RConnCER(_, _, _) => Some(Row(ROpen, reject := true))
      case Stop => Some(Row(Closing))
      case RRcvDPR => Some(Row(Closing))
      case RPeerDisc => Some(Row(Closed, discR := true))
      case _ => None)
    case IOpen => (
      match ev
      case SendMessage => Some(Row(IOpen))
      case IRcvMessage => Some(Row(IOpen))
      case IRcvDWR => Some(Row(IOpen))
      case IRcvDWA => Some(Row(IOpen))
      case RConnCER(_, _, _) => Some(Row(IOpen, reject := true))
      case Stop => Some(Row(Closing))
      case IRcvDPR => Some(Row(Closing))
      case IPeerDisc => Some(Row(Closed, discI := true))
      case _ => None)
    case Closing => (
      match ev
      case IRcvDPA => Some(Row(Closed, discI := true))
      case RRcvDPA => Some(Row(Closed, discR := true))
      case Timeout => Some(Row(Closed))
      case IPeerDisc => Some(Row(Closed, discI := true))
      case RPeerDisc => Some(Row(Closed, discR := true))
      case _ => None)
    case _ => None
  }

  /** What the row sends can be written, and what it processes is in order. */
  predicate Smooth(n: Node, ev: Event, row: Row, sendOk: bool) {
    && (row.sndCER || row.sndCEA ==> sendOk)
    && (ev.IRcvCEA? ==> ev.host.Some?)
    && (ev.RConnCER? && !row.reject ==> n.rConn == None && ev.host.Some? && ev.accepted)
  }

  /** The identity the peer gives, if the event carries one that is processed. */
  function Given(n: Node, ev: Event, row: Row): Text {
    if ev.RConnCER? && !row.reject && ev.host.Some? then ev.host.value
    else if ev.IRcvCEA? && ev.host.Some? then ev.host.value
    else n.remote
  }

  /** A connection lost, refused or timed out before it was wanted closed is tried again by a persistent peer. */
  predicate Gone(n: Node, row: Row) { row.next == Closed && n.state != Closing }

  /** The timer of the waits: set by what is started, kept from wait to wait, cleared at their end. */
  function TimeoutAfter(n: Node, ev: Event, row: Row): Timer {
    if ev.Start? || ev.IRcvConnAck? || ev.Stop? then Armed
    else if row.next == Closed || (Waiting(n.state) && !Waiting(row.next)) then Nil
    else n.timeout
  }

  /** The watchdog: set when a connection opens and by what is received, cleared when it ends. */
  function WatchdogAfter(n: Node, ev: Event, row: Row): Timer {
    if row.next == Closed || row.next == Closing then Nil
    else if !Open(row.next) then n.watchdog
    else if !Open(n.state) then Armed
    else if ev.SendMessage? || ev.RConnCER? || n.watchdog == Nil then n.watchdog
    else Armed
  }

  /** Whether a request is kept to be answered after the election. */
  predicate KeptAfter(n: Node, ev: Event, row: Row) {
    if ev.RConnCER? && !row.reject && Waiting(row.next) then true
    else if row.next == Closed then false
    else n.pendingCER && (n.state in {WaitConnAckElect, WaitReturns} ==> row.next in {WaitConnAckElect, WaitReturns})
  }

  /**
   * The row was followed. On the way to Closed everything held is let go; a peer that is not persistent
   * ends there.
   */
  predicate Followed(n: Node, ev: Event, row: Row, q: Node) {
    && q.state == (if Gone(n, row) && !n.persistent then Zombie else row.next)
    && q.fx == Effects(row.sndConnReq, row.sndCER, row.sndCEA, row.reject,
                       n.iConn.Some? && (row.discI || row.next == Closed),
                       n.rConn.Some? && (row.discR || row.next == Closed),
                       Gone(n, row) && n.persistent)
    && q.iConn == (if row.discI || row.next == Closed then None else n.iConn)
    && q.rConn == (if row.discR || row.next == Closed then None
                   else if ev.RConnCER? && !row.reject then Some(ev.conn) else n.rConn)
    && q.remote == Given(n, ev, row)
    && q.queue == (if row.elect then Elect(n.(remote := q.remote)).queue else n.queue)
    && q.local == n.local && q.persistent == n.persistent
    && q.timeout == TimeoutAfter(n, ev, row) && q.watchdog == WatchdogAfter(n, ev, row)
    && q.pendingCER == KeptAfter(n, ev, row)
  }

  lemma ClosedFollows(n: Node, ev: Event, row: Row, sendOk: bool)
    requires n.state == Closed && TableRow(n.state, ev) == Some(row) && Smooth(n, ev, row, sendOk)
    ensures Followed(n, ev, row, Handle(n, ev, sendOk))
  {
    hide InWaitConnAck, InWaitICEA, InWaitConnAckElect, InWaitReturns, InROpen, InIOpen, InClosing, InSuspect, Less;
  }

  lemma WaitConnAckRequest(n: Node, ev: Event, row: Row, sendOk: bool)
    requires n.state == WaitConnAck && TableRow(n.state, ev) == Some(row) && Smooth(n, ev, row, sendOk)
    requires ev.RConnCER?
    ensures Followed(n, ev, row, Handle(n, ev, sendOk))
  {
    hide InClosed, InWaitICEA, InWaitConnAckElect, InWaitReturns, InROpen, InIOpen, InClosing, InSuspect, Less;
  }

  lemma WaitConnAckDial(n: Node, ev: Event, row: Row, sendOk: bool)
    requires n.state == WaitConnAck && TableRow(n.state, ev) == Some(row) && Smooth(n, ev, row, sendOk)
    requires !(ev.RConnCER?)
    ensures Followed(n, ev, row, Handle(n, ev, sendOk))
  {
    DownIs(n);
    hide InClosed, InWaitICEA, InWaitConnAckElect, InWaitReturns, InROpen, InIOpen, InClosing, InSuspect, Less,
         FailClosed, FailAndReconnect;
  }

  lemma WaitConnAckFollows(n: Node, ev: Event, row: Row, sendOk: bool)
    requires n.state == WaitConnAck && TableRow(n.state, ev) == Some(row) && Smooth(n, ev, row, sendOk)
    ensures Followed(n, ev, row, Handle(n, ev, sendOk))
  {
    if ev.RConnCER? {
      WaitConnAckRequest(n, ev, row, sendOk);
    } else {
      WaitConnAckDial(n, ev, row, sendOk);
    }
    hide Handle, Followed, Smooth, TableRow;
  }

  lemma WaitICEARequest(n: Node, ev: Event, row: Row, sendOk: bool)
    requires n.state == WaitICEA && TableRow(n.state, ev) == Some(row) && Smooth(n, ev, row, sendOk)
    requires ev.RConnCER?
    ensures Followed(n, ev, row, Handle(n, ev, sendOk))
  {
    hide InClosed, InWaitConnAck, InWaitConnAckElect, InWaitReturns, InROpen, InIOpen, InClosing, InSuspect, Less;
  }

  lemma WaitICEAAnswer(n: Node, ev: Event, row: Row, sendOk: bool)
    requires n.state == WaitICEA && TableRow(n.state, ev) == Some(row) && Smooth(n, ev, row, sendOk)
    requires !(ev.RConnCER?)
    ensures Followed(n, ev, row, Handle(n, ev, sendOk))
  {
    DownIs(n);
    hide InClosed, InWaitConnAck, InWaitConnAckElect, InWaitReturns, InROpen, InIOpen, InClosing, InSuspect, Less,
         FailClosed, FailAndReconnect;
  }

  lemma WaitICEAFollows(n: Node, ev: Event, row: Row, sendOk: bool)
    requires n.state == WaitICEA && TableRow(n.state, ev) == Some(row) && Smooth(n, ev, row, sendOk)
    ensures Followed(n, ev, row, Handle(n, ev, sendOk))
  {
    if ev.RConnCER? {
      WaitICEARequest(n, ev, row, sendOk);
    } else {
      WaitICEAAnswer(n, ev, row, sendOk);
    }
    hide Handle, Followed, Smooth, TableRow;
  }

  lemma WaitConnAckElectDial(n: Node, ev: Event, row: Row, sendOk: bool)
    requires n.state == WaitConnAckElect && TableRow(n.state, ev) == Some(row) && Smooth(n, ev, row, sendOk)
    requires ev.IRcvConnAck? || ev.IRcvConnNack?
    ensures Followed(n, ev, row, Handle(n, ev, sendOk))
  {
    DownIs(n);
    hide InClosed, InWaitConnAck, InWaitICEA, InWaitReturns, InROpen, InIOpen, InClosing, InSuspect, Less, FailClosed,
         FailAndReconnect;
  }

  lemma WaitConnAckElectRest(n: Node, ev: Event, row: Row, sendOk: bool)
    requires n.state == WaitConnAckElect && TableRow(n.state, ev) == Some(row) && Smooth(n, ev, row, sendOk)
    requires !(ev.IRcvConnAck? || ev.IRcvConnNack?)
    ensures Followed(n, ev, row, Handle(n, ev, sendOk))
  {
    DownIs(n);
    hide InClosed, InWaitConnAck, InWaitICEA, InWaitReturns, InROpen, InIOpen, InClosing, InSuspect, Less, FailClosed,
         FailAndReconnect;
  }

  lemma WaitConnAckElectFollows(n: Node, ev: Event, row: Row, sendOk: bool)
    requires n.state == WaitConnAckElect && TableRow(n.state, ev) == Some(row) && Smooth(n, ev, row, sendOk)
    ensures Followed(n, ev, row, Handle(n, ev, sendOk))
  {
    if ev.IRcvConnAck? || ev.IRcvConnNack? {
      WaitConnAckElectDial(n, ev, row, sendOk);
    } else {
      WaitConnAckElectRest(n, ev, row, sendOk);
    }
    hide Handle, Followed, Smooth, TableRow;
  }

  lemma WaitReturnsAnswers(n: Node, ev: Event, row: Row, sendOk: bool)
    requires n.state == WaitReturns && TableRow(n.state, ev) == Some(row) && Smooth(n, ev, row, sendOk)
    requires ev.WinElection? || ev.IPeerDisc?
    ensures Followed(n, ev, row, Handle(n, ev, sendOk))
  {
    hide InClosed, InWaitConnAck, InWaitICEA, InWaitConnAckElect, InROpen, InIOpen, InClosing, InSuspect, Less, Elect;
  }

  lemma WaitReturnsAnswered(n: Node, ev: Event, row: Row, sendOk: bool)
    requires n.state == WaitReturns && TableRow(n.state, ev) == Some(row) && Smooth(n, ev, row, sendOk)
    requires !(ev.WinElection? || ev.IPeerDisc?)
    requires ev.IRcvCEA?
    ensures Followed(n, ev, row, Handle(n, ev, sendOk))
  {
    hide InClosed, InWaitConnAck, InWaitICEA, InWaitConnAckElect, InROpen, InIOpen, InClosing, InSuspect, Less, Elect;
  }

  lemma WaitReturnsStays(n: Node, ev: Event, row: Row, sendOk: bool)
    requires n.state == WaitReturns && TableRow(n.state, ev) == Some(row) && Smooth(n, ev, row, sendOk)
    requires !(ev.WinElection? || ev.IPeerDisc?)
    requires !(ev.IRcvCEA?)
    ensures Followed(n, ev, row, Handle(n, ev, sendOk))
  {
    DownIs(n);
    hide InClosed, InWaitConnAck, InWaitICEA, InWaitConnAckElect, InROpen, InIOpen, InClosing, InSuspect, Less, Elect,
         FailClosed, FailAndReconnect;
  }

  lemma WaitReturnsDrops(n: Node, ev: Event, row: Row, sendOk: bool)
    requires n.state == WaitReturns && TableRow(n.state, ev) == Some(row) && Smooth(n, ev, row, sendOk)
    requires !(ev.WinElection? || ev.IPeerDisc?)
    ensures Followed(n, ev, row, Handle(n, ev, sendOk))
  {
    if ev.IRcvCEA? {
      WaitReturnsAnswered(n, ev, row, sendOk);
    } else {
      WaitReturnsStays(n, ev, row, sendOk);
    }
    hide Handle, Followed, Smooth, TableRow;
  }

  lemma WaitReturnsFollows(n: Node, ev: Event, row: Row, sendOk: bool)
    requires n.state == WaitReturns && TableRow(n.state, ev) == Some(row) && Smooth(n, ev, row, sendOk)
    ensures Followed(n, ev, row, Handle(n, ev, sendOk))
  {
    if ev.WinElection? || ev.IPeerDisc? {
      WaitReturnsAnswers(n, ev, row, sendOk);
    } else {
      WaitReturnsDrops(n, ev, row, sendOk);
    }
    hide Handle, Followed, Smooth, TableRow;
  }

  lemma ROpenEnds(n: Node, ev: Event, row: Row, sendOk: bool)
    requires n.state == ROpen && TableRow(n.state, ev) == Some(row) && Smooth(n, ev, row, sendOk)
    requires ev.Stop? || ev.RRcvDPR? || ev.RPeerDisc?
    ensures Followed(n, ev, row, Handle(n, ev, sendOk))
  {
    DownIs(n);
    hide InClosed, InWaitConnAck, InWaitICEA, InWaitConnAckElect, InWaitReturns, InIOpen, InClosing, InSuspect, Less,
         Elect, FailClosed, FailAndReconnect;
  }

  lemma ROpenGoesOn(n: Node, ev: Event, row: Row, sendOk: bool)
    requires n.state == ROpen && TableRow(n.state, ev) == Some(row) && Smooth(n, ev, row, sendOk)
    requires !(ev.Stop? || ev.RRcvDPR? || ev.RPeerDisc?)
    ensures Followed(n, ev, row, Handle(n, ev, sendOk))
  {
    hide InClosed, InWaitConnAck, InWaitICEA, InWaitConnAckElect, InWaitReturns, InIOpen, InClosing, InSuspect, Less,
         Elect;
  }

  lemma ROpenFollows(n: Node, ev: Event, row: Row, sendOk: bool)
    requires n.state == ROpen && TableRow(n.state, ev) == Some(row) && Smooth(n, ev, row, sendOk)
    ensures Followed(n, ev, row, Handle(n, ev, sendOk))
  {
    if ev.Stop? || ev.RRcvDPR? || ev.RPeerDisc? {
      ROpenEnds(n, ev, row, sendOk);
    } else {
      ROpenGoesOn(n, ev, row, sendOk);
    }
    hide Handle, Followed, Smooth, TableRow;
  }

  lemma IOpenEnds(n: Node, ev: Event, row: Row, sendOk: bool)
    requires n.state == IOpen && TableRow(n.state, ev) == Some(row) && Smooth(n, ev, row, sendOk)
    requires ev.Stop? || ev.IRcvDPR? || ev.IPeerDisc?
    ensures Followed(n, ev, row, Handle(n, ev, sendOk))
  {
    DownIs(n);
    hide InClosed, InWaitConnAck, InWaitICEA, InWaitConnAckElect, InWaitReturns, InROpen, InClosing, InSuspect, Less,
         Elect, FailClosed, FailAndReconnect;
  }

  lemma IOpenGoesOn(n: Node, ev: Event, row: Row, sendOk: bool)
    requires n.state == IOpen && TableRow(n.state, ev) == Some(row) && Smooth(n, ev, row, sendOk)
    requires !(ev.Stop? || ev.IRcvDPR? || ev.IPeerDisc?)
    ensures Followed(n, ev, row, Handle(n, ev, sendOk))
  {
    hide InClosed, InWaitConnAck, InWaitICEA, InWaitConnAckElect, InWaitReturns, InROpen, InClosing, InSuspect, Less,
         Elect;
  }

  lemma IOpenFollows(n: Node, ev: Event, row: Row, sendOk: bool)
    requires n.state == IOpen && TableRow(n.state, ev) == Some(row) && Smooth(n, ev, row, sendOk)
    ensures Followed(n, ev, row, Handle(n, ev, sendOk))
  {
    if ev.Stop? || ev.IRcvDPR? || ev.IPeerDisc? {
      IOpenEnds(n, ev, row, sendOk);
    } else {
      IOpenGoesOn(n, ev, row, sendOk);
    }
    hide Handle, Followed, Smooth, TableRow;
  }

  lemma ClosingFollows(n: Node, ev: Event, row: Row, sendOk: bool)
    requires n.state == Closing && TableRow(n.state, ev) == Some(row) && Smooth(n, ev, row, sendOk)
    ensures Followed(n, ev, row, Handle(n, ev, sendOk))
  {
    DownIs(n);
    hide InClosed, InWaitConnAck, InWaitICEA, InWaitConnAckElect, InWaitReturns, InROpen, InIOpen, InSuspect, Less,
         Elect, FailClosed, FailAndReconnect;
  }

  /** Wherever the table has a row and the row goes smoothly, the handlers follow it. */
  lemma FollowsTheTable(n: Node, ev: Event, row: Row, sendOk: bool)
    requires TableRow(n.state, ev) == Some(row) && Smooth(n, ev, row, sendOk)
    ensures Followed(n, ev, row, Handle(n, ev, sendOk))
  {
    match n.state {
      case Closed => ClosedFollows(n, ev, row, sendOk);
      case WaitConnAck => WaitConnAckFollows(n, ev, row, sendOk);
      case WaitICEA => WaitICEAFollows(n, ev, row, sendOk);
      case WaitConnAckElect => WaitConnAckElectFollows(n, ev, row, sendOk);
      case WaitReturns => WaitReturnsFollows(n, ev, row, sendOk);
      case ROpen => ROpenFollows(n, ev, row, sendOk);
      case IOpen => IOpenFollows(n, ev, row, sendOk);
      case Closing => ClosingFollows(n, ev, row, sendOk);
      case _ =>
    }
    hide Handle, Followed, Smooth;
  }

  // ---------------------------------------------------------------- off the table

  lemma ClosedFails(n: Node, ev: Event, row: Row, sendOk: bool)
    requires n.state == Closed
    requires TableRow(n.state, ev) == Some(row) && !Smooth(n, ev, row, sendOk)
    requires ev.RConnCER? ==> Smooth(n, ev, row, true)
    ensures var q := Handle(n, ev, sendOk);
      && q.state == Closed && !q.fx.reconnect && !q.fx.sentCER && !q.fx.sentCEA && q.rConn == None
      && (row.discI || row.sndCER || ev.IRcvCEA? ==> q.iConn == None)
  {
    hide InWaitConnAck, InWaitICEA, InWaitConnAckElect, InWaitReturns, InROpen, InIOpen, InClosing, InSuspect, Less,
         Elect;
  }

  lemma WaitConnAckFails(n: Node, ev: Event, row: Row, sendOk: bool)
    requires n.state == WaitConnAck
    requires TableRow(n.state, ev) == Some(row) && !Smooth(n, ev, row, sendOk)
    requires ev.RConnCER? ==> Smooth(n, ev, row, true)
    ensures var q := Handle(n, ev, sendOk);
      && q.state == Closed && !q.fx.reconnect && !q.fx.sentCER && !q.fx.sentCEA && q.rConn == None
      && (row.discI || row.sndCER || ev.IRcvCEA? ==> q.iConn == None)
  {
    DownIs(n);
    hide InClosed, InWaitICEA, InWaitConnAckElect, InWaitReturns, InROpen, InIOpen, InClosing, InSuspect, Less, Elect,
         FailClosed, FailAndReconnect;
  }

  lemma WaitICEAFails(n: Node, ev: Event, row: Row, sendOk: bool)
    requires n.state == WaitICEA
    requires TableRow(n.state, ev) == Some(row) && !Smooth(n, ev, row, sendOk)
    requires ev.RConnCER? ==> Smooth(n, ev, row, true)
    ensures var q := Handle(n, ev, sendOk);
      && q.state == Closed && !q.fx.reconnect && !q.fx.sentCER && !q.fx.sentCEA && q.rConn == None
      && (row.discI || row.sndCER || ev.IRcvCEA? ==> q.iConn == None)
  {
    DownIs(n);
    hide InClosed, InWaitConnAck, InWaitConnAckElect, InWaitReturns, InROpen, InIOpen, InClosing, InSuspect, Less,
         Elect, FailClosed, FailAndReconnect;
  }

  lemma WaitConnAckElectFails(n: Node, ev: Event, row: Row, sendOk: bool)
    requires n.state == WaitConnAckElect
    requires TableRow(n.state, ev) == Some(row) && !Smooth(n, ev, row, sendOk)
    requires ev.RConnCER? ==> Smooth(n, ev, row, true)
    ensures var q := Handle(n, ev, sendOk);
      && q.state == Closed && !q.fx.reconnect && !q.fx.sentCER && !q.fx.sentCEA && q.rConn == None
      && (row.discI || row.sndCER || ev.IRcvCEA? ==> q.iConn == None)
  {
    DownIs(n);
    hide InClosed, InWaitConnAck, InWaitICEA, InWaitReturns, InROpen, InIOpen, InClosing, InSuspect, Less, Elect,
         FailClosed, FailAndReconnect;
  }

  lemma WaitReturnsRefused(n: Node, ev: Event, row: Row, sendOk: bool)
    requires n.state == WaitReturns
    requires TableRow(n.state, ev) == Some(row) && !Smooth(n, ev, row, sendOk)
    requires ev.RConnCER? ==> Smooth(n, ev, row, true)
    requires ev.IRcvCEA?
    ensures var q := Handle(n, ev, sendOk);
      && q.state == Closed && !q.fx.reconnect && !q.fx.sentCER && !q.fx.sentCEA && q.rConn == None
      && (row.discI || row.sndCER || ev.IRcvCEA? ==> q.iConn == None)
  {
    DownIs(n);
    hide InClosed, InWaitConnAck, InWaitICEA, InWaitConnAckElect, InROpen, InIOpen, InClosing, InSuspect, Less, Elect,
         FailClosed, FailAndReconnect;
  }

  lemma WaitReturnsUnsent(n: Node, ev: Event, row: Row, sendOk: bool)
    requires n.state == WaitReturns
    requires TableRow(n.state, ev) == Some(row) && !Smooth(n, ev, row, sendOk)
    requires ev.RConnCER? ==> Smooth(n, ev, row, true)
    requires !ev.IRcvCEA?
    ensures var q := Handle(n, ev, sendOk);
      && q.state == Closed && !q.fx.reconnect && !q.fx.sentCER && !q.fx.sentCEA && q.rConn == None
      && (row.discI || row.sndCER || ev.IRcvCEA? ==> q.iConn == None)
  {
    DownIs(n);
    hide InClosed, InWaitConnAck, InWaitICEA, InWaitConnAckElect, InROpen, InIOpen, InClosing, InSuspect, Less, Elect,
         FailClosed, FailAndReconnect;
  }

  lemma WaitReturnsFails(n: Node, ev: Event, row: Row, sendOk: bool)
    requires n.state == WaitReturns
    requires TableRow(n.state, ev) == Some(row) && !Smooth(n, ev, row, sendOk)
    requires ev.RConnCER? ==> Smooth(n, ev, row, true)
    ensures var q := Handle(n, ev, sendOk);
      && q.state == Closed && !q.fx.reconnect && !q.fx.sentCER && !q.fx.sentCEA && q.rConn == None
      && (row.discI || row.sndCER || ev.IRcvCEA? ==> q.iConn == None)
  {
    if ev.IRcvCEA? {
      WaitReturnsRefused(n, ev, row, sendOk);
    } else {
      WaitReturnsUnsent(n, ev, row, sendOk);
    }
    hide Handle, Smooth, TableRow;
  }

  /**
   * A message that cannot be written, or an answer that is no success, leads to Closed with nothing said
   * and without another attempt.
   */
  lemma Fails(n: Node, ev: Event, row: Row, sendOk: bool)
    requires TableRow(n.state, ev) == Some(row) && !Smooth(n, ev, row, sendOk)
    requires ev.RConnCER? ==> Smooth(n, ev, row, true)
    ensures var q := Handle(n, ev, sendOk);
      && q.state == Closed && !q.fx.reconnect && !q.fx.sentCER && !q.fx.sentCEA && q.rConn == None
      && (row.discI || row.sndCER || ev.IRcvCEA? ==> q.iConn == None)
  {
    match n.state {
      case Closed => ClosedFails(n, ev, row, sendOk);
      case WaitConnAck => WaitConnAckFails(n, ev, row, sendOk);
      case WaitICEA => WaitICEAFails(n, ev, row, sendOk);
      case WaitConnAckElect => WaitConnAckElectFails(n, ev, row, sendOk);
      case WaitReturns => WaitReturnsFails(n, ev, row, sendOk);
      case _ =>
    }
    hide Handle;
  }

  lemma ClosedTurnsAway(n: Node, ev: Event, row: Row, sendOk: bool)
    requires n.state == Closed
    requires ev.RConnCER? && TableRow(n.state, ev) == Some(row)
    requires row.reject || n.rConn.Some? || ev.host == None || !ev.accepted
    ensures var q := Handle(n, ev, sendOk);
      && q.fx.rejected && !q.fx.sentCEA && !q.fx.closedI && q.state == n.state && q.iConn == n.iConn
      && q.queue == n.queue
      && (row.reject || n.rConn.Some? ==> q.rConn == n.rConn && q.remote == n.remote)
      && (!row.reject && n.rConn == None ==> q.rConn == if n.state == Closed then Some(ev.conn) else None)
  {
    hide InWaitConnAck, InWaitICEA, InWaitConnAckElect, InWaitReturns, InROpen, InIOpen, InClosing, InSuspect, Less,
         Elect;
  }

  lemma WaitConnAckTurnsAway(n: Node, ev: Event, row: Row, sendOk: bool)
    requires n.state == WaitConnAck
    requires ev.RConnCER? && TableRow(n.state, ev) == Some(row)
    requires row.reject || n.rConn.Some? || ev.host == None || !ev.accepted
    ensures var q := Handle(n, ev, sendOk);
      && q.fx.rejected && !q.fx.sentCEA && !q.fx.closedI && q.state == n.state && q.iConn == n.iConn
      && q.queue == n.queue
      && (row.reject || n.rConn.Some? ==> q.rConn == n.rConn && q.remote == n.remote)
      && (!row.reject && n.rConn == None ==> q.rConn == if n.state == Closed then Some(ev.conn) else None)
  {
    hide InClosed, InWaitICEA, InWaitConnAckElect, InWaitReturns, InROpen, InIOpen, InClosing, InSuspect, Less, Elect;
  }

  lemma WaitICEATurnsAway(n: Node, ev: Event, row: Row, sendOk: bool)
    requires n.state == WaitICEA
    requires ev.RConnCER? && TableRow(n.state, ev) == Some(row)
    requires row.reject || n.rConn.Some? || ev.host == None || !ev.accepted
    ensures var q := Handle(n, ev, sendOk);
      && q.fx.rejected && !q.fx.sentCEA && !q.fx.closedI && q.state == n.state && q.iConn == n.iConn
      && q.queue == n.queue
      && (row.reject || n.rConn.Some? ==> q.rConn == n.rConn && q.remote == n.remote)
      && (!row.reject && n.rConn == None ==> q.rConn == if n.state == Closed then Some(ev.conn) else None)
  {
    hide InClosed, InWaitConnAck, InWaitConnAckElect, InWaitReturns, InROpen, InIOpen, InClosing, InSuspect, Less,
         Elect;
  }

  lemma WaitConnAckElectTurnsAway(n: Node, ev: Event, row: Row, sendOk: bool)
    requires n.state == WaitConnAckElect
    requires ev.RConnCER? && TableRow(n.state, ev) == Some(row)
    requires row.reject || n.rConn.Some? || ev.host == None || !ev.accepted
    ensures var q := Handle(n, ev, sendOk);
      && q.fx.rejected && !q.fx.sentCEA && !q.fx.closedI && q.state == n.state && q.iConn == n.iConn
      && q.queue == n.queue
      && (row.reject || n.rConn.Some? ==> q.rConn == n.rConn && q.remote == n.remote)
      && (!row.reject && n.rConn == None ==> q.rConn == if n.state == Closed then Some(ev.conn) else None)
  {
    hide InClosed, InWaitConnAck, InWaitICEA, InWaitReturns, InROpen, InIOpen, InClosing, InSuspect, Less, Elect;
  }

  lemma WaitReturnsTurnsAway(n: Node, ev: Event, row: Row, sendOk: bool)
    requires n.state == WaitReturns
    requires ev.RConnCER? && TableRow(n.state, ev) == Some(row)
    requires row.reject || n.rConn.Some? || ev.host == None || !ev.accepted
    ensures var q := Handle(n, ev, sendOk);
      && q.fx.rejected && !q.fx.sentCEA && !q.fx.closedI && q.state == n.state && q.iConn == n.iConn
      && q.queue == n.queue
      && (row.reject || n.rConn.Some? ==> q.rConn == n.rConn && q.remote == n.remote)
      && (!row.reject && n.rConn == None ==> q.rConn == if n.state == Closed then Some(ev.conn) else None)
  {
    hide InClosed, InWaitConnAck, InWaitICEA, InWaitConnAckElect, InROpen, InIOpen, InClosing, InSuspect, Less, Elect;
  }

  lemma ROpenTurnsAway(n: Node, ev: Event, row: Row, sendOk: bool)
    requires n.state == ROpen
    requires ev.RConnCER? && TableRow(n.state, ev) == Some(row)
    requires row.reject || n.rConn.Some? || ev.host == None || !ev.accepted
    ensures var q := Handle(n, ev, sendOk);
      && q.fx.rejected && !q.fx.sentCEA && !q.fx.closedI && q.state == n.state && q.iConn == n.iConn
      && q.queue == n.queue
      && (row.reject || n.rConn.Some? ==> q.rConn == n.rConn && q.remote == n.remote)
      && (!row.reject && n.rConn == None ==> q.rConn == if n.state == Closed then Some(ev.conn) else None)
  {
    hide InClosed, InWaitConnAck, InWaitICEA, InWaitConnAckElect, InWaitReturns, InIOpen, InClosing, InSuspect, Less,
         Elect;
  }

  lemma IOpenTurnsAway(n: Node, ev: Event, row: Row, sendOk: bool)
    requires n.state == IOpen
    requires ev.RConnCER? && TableRow(n.state, ev) == Some(row)
    requires row.reject || n.rConn.Some? || ev.host == None || !ev.accepted
    ensures var q := Handle(n, ev, sendOk);
      && q.fx.rejected && !q.fx.sentCEA && !q.fx.closedI && q.state == n.state && q.iConn == n.iConn
      && q.queue == n.queue
      && (row.reject || n.rConn.Some? ==> q.rConn == n.rConn && q.remote == n.remote)
      && (!row.reject && n.rConn == None ==> q.rConn == if n.state == Closed then Some(ev.conn) else None)
  {
    hide InClosed, InWaitConnAck, InWaitICEA, InWaitConnAckElect, InWaitReturns, InROpen, InClosing, InSuspect, Less,
         Elect;
  }

  /**
   * A request that comes with its connection is turned away when one is held already or it is not
   * acceptable. The state stays; the connection of an unacceptable one is closed, except in Closed.
   */
  lemma TurnsAway(n: Node, ev: Event, row: Row, sendOk: bool)
    requires ev.RConnCER? && TableRow(n.state, ev) == Some(row)
    requires row.reject || n.rConn.Some? || ev.host == None || !ev.accepted
    ensures var q := Handle(n, ev, sendOk);
      && q.fx.rejected && !q.fx.sentCEA && !q.fx.closedI && q.state == n.state && q.iConn == n.iConn
      && q.queue == n.queue
      && (row.reject || n.rConn.Some? ==> q.rConn == n.rConn && q.remote == n.remote)
      && (!row.reject && n.rConn == None ==> q.rConn == if n.state == Closed then Some(ev.conn) else None)
  {
    match n.state {
      case Closed => ClosedTurnsAway(n, ev, row, sendOk);
      case WaitConnAck => WaitConnAckTurnsAway(n, ev, row, sendOk);
      case WaitICEA => WaitICEATurnsAway(n, ev, row, sendOk);
      case WaitConnAckElect => WaitConnAckElectTurnsAway(n, ev, row, sendOk);
      case WaitReturns => WaitReturnsTurnsAway(n, ev, row, sendOk);
      case ROpen => ROpenTurnsAway(n, ev, row, sendOk);
      case IOpen => IOpenTurnsAway(n, ev, row, sendOk);
      case _ =>
    }
    hide Handle;
  }

  lemma UnopenedIgnores(n: Node, ev: Event, sendOk: bool)
    requires TableRow(n.state, ev) == None
    requires n.state in {Closed, WaitConnAck, WaitICEA, WaitConnAckElect, WaitReturns}
    ensures Handle(n, ev, sendOk) == n.(fx := SILENT)
  {
    hide InROpen, InIOpen, InClosing, InSuspect, Less, Elect, FailClosed, FailAndReconnect, AnswerPending;
  }

  lemma OpenedIgnores(n: Node, ev: Event, sendOk: bool)
    requires TableRow(n.state, ev) == None
    requires n.state in {ROpen, IOpen, Closing, Zombie}
    ensures Handle(n, ev, sendOk) ==
      if ev.Timeout? && (n.state == IOpen || n.state == ROpen)
      then n.(state := Suspect, watchdog := Armed, fx := SILENT)
      else n.(fx := SILENT)
  {
    hide InClosed, InWaitConnAck, InWaitICEA, InWaitConnAckElect, InWaitReturns, InSuspect, FailClosed,
         FailAndReconnect;
  }

  /** Without a row an event does nothing, but for the watchdog's timeouts and for Suspect. */
  lemma NoRowNoEffect(n: Node, ev: Event, sendOk: bool)
    requires TableRow(n.state, ev) == None && n.state != Suspect
    ensures Handle(n, ev, sendOk) ==
      if ev.Timeout? && (n.state == IOpen || n.state == ROpen)
      then n.(state := Suspect, watchdog := Armed, fx := SILENT)
      else n.(fx := SILENT)
  {
    if n.state in {Closed, WaitConnAck, WaitICEA, WaitConnAckElect, WaitReturns} {
      UnopenedIgnores(n, ev, sendOk);
    } else {
      OpenedIgnores(n, ev, sendOk);
    }
    hide Handle, TableRow;
  }

  /**
   * Any message or watchdog answer ends the suspicion: a connection we opened goes back to I-Open, one
   * the peer opened to R-Open. A timeout or a disconnection closes everything.
   */
  lemma SuspicionEnds(n: Node, ev: Event, sendOk: bool)
    requires n.state == Suspect
    ensures var q := Handle(n, ev, sendOk);
      if ev.IRcvDWA? || ev.RRcvDWA? || ev.IRcvMessage? || ev.RRcvMessage? then
        && q.state == (if n.iConn.Some? then IOpen else ROpen)
        && q == n.(state := q.state, watchdog := if n.watchdog == Nil then Nil else Armed, fx := SILENT)
      else if ev.Timeout? || ev.IPeerDisc? || ev.RPeerDisc? then
        && q.state == (if n.persistent then Closed else Zombie) && q.fx.reconnect == n.persistent
        && q.iConn == None && q.rConn == None && q.timeout == Nil && q.watchdog == Nil
      else q == n.(fx := SILENT)
  {
    hide InClosed, InWaitConnAck, InWaitICEA, InWaitConnAckElect, InWaitReturns, InROpen, InIOpen, InClosing, Less,
         Elect;
  }
}
