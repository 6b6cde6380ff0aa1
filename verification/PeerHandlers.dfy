/**
 * The peer as the object the code declares: handlers change its fields one after the other. Every
 * method is proved to do to the whole peer what the function of `PeerMachine` says.
 */
module PeerHandlers {
  import opened Bytes
  import opened Names
  import opened PeerMachine

  class Peer {
    var state: PeerState
    var iConn: Option<Conn>
    var rConn: Option<Conn>
    var pendingCER: bool
    var timeoutTimer: Timer
    var watchdogTimer: Timer
    const diameterIdentity: Text
    var diameterID: Text
    const persistent: bool
    var eventChan: seq<Event>
    var fx: Effects

    function Now(): Node
      reads this
    {
      Node(state, iConn, rConn, pendingCER, timeoutTimer, watchdogTimer, diameterIdentity, diameterID, persistent,
           eventChan, fx)
    }

    constructor (identity: Text, persistent: bool)
      ensures Now() == Initial(identity, persistent)
    {
      diameterIdentity, this.persistent := identity, persistent;
      state, iConn, rConn, pendingCER, timeoutTimer, watchdogTimer := Closed, None, None, false, Nil, Nil;
      diameterID, eventChan, fx := [], [], SILENT;
    }

    method SetState(s: PeerState)
      modifies this
      ensures Now() == To(old(Now()), s)
    {
      state := s;
    }

    method StartTimeout()
      modifies this
      ensures Now() == PeerMachine.StartTimeout(old(Now()))
    {
      timeoutTimer := Armed;
    }

    method StopTimeout()
      modifies this
      ensures Now() == PeerMachine.StopTimeout(old(Now()))
    {
      if timeoutTimer != Nil {
        timeoutTimer := Nil;
      }
    }

    method StartWatchdog()
      modifies this
      ensures Now() == PeerMachine.StartWatchdog(old(Now()))
    {
      watchdogTimer := Armed;
    }

    method ResetWatchdog()
      modifies this
      ensures Now() == PeerMachine.ResetWatchdog(old(Now()))
    {
      if watchdogTimer != Nil {
        watchdogTimer := Armed;
      }
    }

    method StopWatchdog()
      modifies this
      ensures Now() == PeerMachine.StopWatchdog(old(Now()))
    {
      if watchdogTimer != Nil {
        watchdogTimer := Nil;
      }
    }

    method CloseIConn()
      modifies this
      ensures Now() == CloseI(old(Now()))
    {
      if iConn.Some? {
        fx := fx.(closedI := true);
        iConn := None;
      }
    }

    method CloseRConn()
      modifies this
      ensures Now() == CloseR(old(Now()))
    {
      if rConn.Some? {
        fx := fx.(closedR := true);
        rConn := None;
      }
    }

    method ErrorCleanup()
      modifies this
      ensures Now() == PeerMachine.ErrorCleanup(old(Now()))
    {
      StopTimeout();
      StopWatchdog();
      CloseIConn();
      CloseRConn();
      pendingCER := false;
    }

    method ScheduleReconnect()
      modifies this
      ensures Now() == Reconnect(old(Now()))
    {
      if persistent {
        fx := fx.(reconnect := true);
      } else {
        SetState(Zombie);
      }
    }

    /** The error path most states share. */
    method CleanupAndReconnect()
      modifies this
      ensures Now() == FailAndReconnect(old(Now()))
    {
      ErrorCleanup();
      SetState(Closed);
      ScheduleReconnect();
    }

    method AcceptResponderConnection(conn: Conn) returns (ok: bool)
      modifies this
      ensures ok == (old(rConn) == None)
      ensures Now() == if ok then old(Now()).(rConn := Some(conn)) else old(Now())
    {
      if rConn.Some? {
        return false;
      }
      rConn := Some(conn);
      return true;
    }

    method RejectConnection()
      modifies this
      ensures Now() == Reject(old(Now()))
    {
      fx := fx.(rejected := true);
    }

    method ProcessCER(ev: Event) returns (ok: bool)
      requires ev.RConnCER?
      modifies this
      ensures Now() == Identified(old(Now()), ev) && ok == Acceptable(ev)
    {
      if ev.host == None {
        return false;
      }
      diameterID := ev.host.value;
      return ev.accepted;
    }

    method PerformElection()
      modifies this
      ensures Now() == Elect(old(Now()))
    {
      if Less(Lower(diameterID), Lower(diameterIdentity)) {
        eventChan := eventChan + [WinElection];
      }
    }

    method SendCER(sendOk: bool)
      modifies this
      ensures Now() == if sendOk then old(Now()).(fx := old(fx).(sentCER := true)) else old(Now())
    {
      if sendOk {
        fx := fx.(sentCER := true);
      }
    }

    method SendCEA(sendOk: bool)
      modifies this
      ensures Now() == if sendOk then PeerMachine.SentCEA(old(Now())) else old(Now())
    {
      if sendOk {
        fx := fx.(sentCEA := true);
      }
    }

    method HandleStateClosed(ev: Event, sendOk: bool)
      modifies this
      ensures Now() == InClosed(old(Now()), ev, sendOk)
    {
      match ev {
        case Start =>
          SetState(WaitConnAck);
          StartTimeout();
          fx := fx.(dial := true);
        case RConnCER(conn, _, _) =>
          var accepted := AcceptResponderConnection(conn);
          if !accepted {
            RejectConnection();
            return;
          }
          var processed := ProcessCER(ev);
          if !processed {
            RejectConnection();
            return;
          }
          SendCEA(sendOk);
          if !sendOk {
            CloseRConn();
            return;
          }
          SetState(ROpen);
          StartWatchdog();
        case _ =>
      }
    }

    method HandleStateWaitConnAck(ev: Event, sendOk: bool)
      modifies this
      ensures Now() == InWaitConnAck(old(Now()), ev, sendOk)
    {
      match ev {
        case IRcvConnAck =>
          StopTimeout();
          SendCER(sendOk);
          if !sendOk {
            ErrorCleanup();
            SetState(Closed);
            return;
          }
          SetState(WaitICEA);
          StartTimeout();
        case IRcvConnNack =>
          StopTimeout();
          CleanupAndReconnect();
        case RConnCER(conn, _, _) =>
          var accepted := AcceptResponderConnection(conn);
          if !accepted {
            RejectConnection();
            return;
          }
          var processed := ProcessCER(ev);
          if !processed {
            RejectConnection();
            CloseRConn();
            return;
          }
          pendingCER := true;
          SetState(WaitConnAckElect);
        case Timeout =>
          CleanupAndReconnect();
        case _ =>
      }
    }

    method HandleStateWaitICEA(ev: Event)
      modifies this
      ensures Now() == InWaitICEA(old(Now()), ev)
    {
      hide FailAndReconnect, Elect;
      match ev {
        case IRcvCEA(host) =>
          StopTimeout();
          if host == None {
            ErrorCleanup();
            SetState(Closed);
            return;
          }
          diameterID := host.value;
          SetState(IOpen);
          StartWatchdog();
        case RConnCER(conn, _, _) =>
          var accepted := AcceptResponderConnection(conn);
          if !accepted {
            RejectConnection();
            return;
          }
          var processed := ProcessCER(ev);
          if !processed {
            RejectConnection();
            CloseRConn();
            return;
          }
          pendingCER := true;
          SetState(WaitReturns);
          PerformElection();
        case IPeerDisc =>
          CleanupAndReconnect();
        case IRcvNonCEA =>
          CleanupAndReconnect();
        case Timeout =>
          CleanupAndReconnect();
        case _ =>
      }
    }

    /** R-Snd-CEA for the request kept, then R-Open. */
    method AnswerPendingCER(sendOk: bool)
      modifies this
      ensures Now() == AnswerPending(old(Now()), sendOk)
    {
      SendCEA(sendOk);
      if !sendOk {
        CloseRConn();
        SetState(Closed);
        return;
      }
      pendingCER := false;
      SetState(ROpen);
      StartWatchdog();
    }

    method HandleStateWaitConnAckElect(ev: Event, sendOk: bool)
      modifies this
      ensures Now() == InWaitConnAckElect(old(Now()), ev, sendOk)
    {
      match ev {
        case IRcvConnAck =>
          StopTimeout();
          SendCER(sendOk);
          if !sendOk {
            ErrorCleanup();
            SetState(Closed);
            return;
          }
          SetState(WaitReturns);
          StartTimeout();
          PerformElection();
        case IRcvConnNack =>
          StopTimeout();
          AnswerPendingCER(sendOk);
        case RPeerDisc =>
          CloseRConn();
          pendingCER := false;
          SetState(WaitConnAck);
        case RConnCER(_, _, _) =>
          RejectConnection();
        case Timeout =>
          CleanupAndReconnect();
        case _ =>
      }
    }

    method HandleStateWaitReturns(ev: Event, sendOk: bool)
      modifies this
      ensures Now() == InWaitReturns(old(Now()), ev, sendOk)
    {
      hide AnswerPending, CloseI, CloseR, PeerMachine.StopTimeout, FailAndReconnect;
      match ev {
        case WinElection =>
          StopTimeout();
          CloseIConn();
          AnswerPendingCER(sendOk);
        case IPeerDisc =>
          StopTimeout();
          CloseIConn();
          AnswerPendingCER(sendOk);
        case IRcvCEA(host) =>
          StopTimeout();
          CloseRConn();
          pendingCER := false;
          if host == None {
            CloseIConn();
            SetState(Closed);
            return;
          }
          diameterID := host.value;
          SetState(IOpen);
          StartWatchdog();
        case RPeerDisc =>
          CloseRConn();
          pendingCER := false;
          SetState(WaitICEA);
        case RConnCER(_, _, _) =>
          RejectConnection();
        case Timeout =>
          CleanupAndReconnect();
        case _ =>
      }
    }

    method HandleStateROpen(ev: Event)
      modifies this
      ensures Now() == InROpen(old(Now()), ev)
    {
      match ev {
        case RRcvMessage =>
          ResetWatchdog();
        case RRcvDWR =>
          ResetWatchdog();
        case RRcvDWA =>
          ResetWatchdog();
          if state == Suspect {
            SetState(ROpen);
          }
        case RConnCER(_, _, _) =>
          RejectConnection();
        case Stop =>
          StopWatchdog();
          SetState(Closing);
          StartTimeout();
        case RRcvDPR =>
          StopWatchdog();
          SetState(Closing);
        case RPeerDisc =>
          CleanupAndReconnect();
        case Timeout =>
          SetState(Suspect);
          StartWatchdog();
        case _ =>
      }
    }

    method HandleStateIOpen(ev: Event)
      modifies this
      ensures Now() == InIOpen(old(Now()), ev)
    {
      match ev {
        case IRcvMessage =>
          ResetWatchdog();
        case IRcvDWR =>
          ResetWatchdog();
        case IRcvDWA =>
          ResetWatchdog();
          if state == Suspect {
            SetState(IOpen);
          }
        case RConnCER(_, _, _) =>
          RejectConnection();
        case Stop =>
          StopWatchdog();
          SetState(Closing);
          StartTimeout();
        case IRcvDPR =>
          StopWatchdog();
          SetState(Closing);
        case IPeerDisc =>
          CleanupAndReconnect();
        case Timeout =>
          SetState(Suspect);
          StartWatchdog();
        case _ =>
      }
    }

    method HandleStateSuspect(ev: Event)
      modifies this
      ensures Now() == InSuspect(old(Now()), ev)
    {
      match ev {
        case IRcvDWA =>
          Revive();
        case RRcvDWA =>
          Revive();
        case IRcvMessage =>
          Revive();
        case RRcvMessage =>
          Revive();
        case Timeout =>
          CleanupAndReconnect();
        case IPeerDisc =>
          CleanupAndReconnect();
        case RPeerDisc =>
          CleanupAndReconnect();
        case _ =>
      }
    }

    /** Back to the open state of the connection held. */
    method Revive()
      modifies this
      ensures Now() == PeerMachine.ResetWatchdog(To(old(Now()), if old(iConn).Some? then IOpen else ROpen))
    {
      if iConn.Some? {
        SetState(IOpen);
      } else {
        SetState(ROpen);
      }
      ResetWatchdog();
    }

    method HandleStateClosing(ev: Event)
      modifies this
      ensures Now() == InClosing(old(Now()), ev)
    {
      match ev {
        case IRcvDPA =>
          ErrorCleanup();
          SetState(Closed);
        case RRcvDPA =>
          ErrorCleanup();
          SetState(Closed);
        case Timeout =>
          ErrorCleanup();
          SetState(Closed);
        case IPeerDisc =>
          ErrorCleanup();
          SetState(Closed);
        case RPeerDisc =>
          ErrorCleanup();
          SetState(Closed);
        case _ =>
      }
    }

    method HandleEvent(ev: Event, sendOk: bool)
      modifies this
      ensures Now() == Handle(old(Now()), ev, sendOk)
    {
      hide Handle;
      fx := SILENT;
      assert Now() == old(Now()).(fx := SILENT);
      SilentHandle(old(Now()), ev, sendOk);
      if state in {Closed, WaitConnAck, WaitICEA, WaitConnAckElect, WaitReturns} {
        HandleUnopened(ev, sendOk);
      } else {
        HandleOpened(ev, sendOk);
      }
    }

    /** The cases of the switch up to the open states. */
    method HandleUnopened(ev: Event, sendOk: bool)
      requires fx == SILENT && state in {Closed, WaitConnAck, WaitICEA, WaitConnAckElect, WaitReturns}
      modifies this
      ensures Now() == Handle(old(Now()), ev, sendOk)
    {
      hide InClosed, InWaitConnAck, InWaitICEA, InWaitConnAckElect, InWaitReturns, InROpen, InIOpen, InSuspect,
           InClosing;
      match state {
        case Closed => HandleStateClosed(ev, sendOk);
        case WaitConnAck => HandleStateWaitConnAck(ev, sendOk);
        case WaitICEA => HandleStateWaitICEA(ev);
        case WaitConnAckElect => HandleStateWaitConnAckElect(ev, sendOk);
        case WaitReturns => HandleStateWaitReturns(ev, sendOk);
      }
    }

    /** The rest of the switch; a zombie takes no event. */
    method HandleOpened(ev: Event, sendOk: bool)
      requires fx == SILENT && state !in {Closed, WaitConnAck, WaitICEA, WaitConnAckElect, WaitReturns}
      modifies this
      ensures Now() == Handle(old(Now()), ev, sendOk)
    {
      hide InClosed, InWaitConnAck, InWaitICEA, InWaitConnAckElect, InWaitReturns, InROpen, InIOpen, InSuspect,
           InClosing;
      match state {
        case ROpen => HandleStateROpen(ev);
        case IOpen => HandleStateIOpen(ev);
        case Closing => HandleStateClosing(ev);
        case Suspect => HandleStateSuspect(ev);
        case Zombie =>
      }
    }
  }

  lemma SilentHandle(n: Node, ev: Event, sendOk: bool)
    ensures Handle(n.(fx := SILENT), ev, sendOk) == Handle(n, ev, sendOk)
  {
    hide InClosed, InWaitConnAck, InWaitICEA, InWaitConnAckElect, InWaitReturns, InROpen, InIOpen, InSuspect, InClosing;
  }
}
