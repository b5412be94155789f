/** `CSvcBase` and `CSvc`: the control handler and the thread in `Run`, while other threads run. The
    object keeps the events of all threads so far in `trace`; a contract says which are its caller's. */
module ServiceObject {
  import opened Words
  import opened Service

  datatype Who = MainThread | AHandler(h: nat) | Anybody

  function By(e: Event): Who {
    match e
    case Ask(h, _, _) => AHandler(h)
    case AlertRun(h) => AHandler(h)
    case Hint => Anybody
    case _ => MainThread
  }

  /** The events of one thread, in order. */
  function Mine(trace: seq<Event>, who: Who): seq<Event> {
    if trace == [] then []
    else Mine(trace[..|trace| - 1], who) + if By(trace[|trace| - 1]) == who then [trace[|trace| - 1]] else []
  }

  lemma MineNext(trace: seq<Event>, e: Event, who: Who)
    ensures Mine(trace + [e], who) == if By(e) == who then Mine(trace, who) + [e] else Mine(trace, who)
  {
    assert (trace + [e])[..|trace|] == trace;
  }

  /** What one thread can count on while others run: a handler that still has to alert, and where the
      thread in `Run` stands and that an alert given to it waits for it. */
  predicate Rely(who: Who, s: State, s': State) {
    match who
    case MainThread => s'.run == s.run && (s.alerted ==> s'.alerted)
    case AHandler(h) => h in s'.handlers <==> h in s.handlers
    case Anybody => true
  }

  /** Every step of another thread grants it. */
  lemma RelyStep(who: Who, s: State, e: Event)
    requires Enabled(s, e) && By(e) != who
    ensures Rely(who, s, Step(s, e))
  {
  }

  /** One turn of the loop in `Run`: the target it reads; for "running" how the server starts; and
      whether it waits for an alert. */
  datatype Turn = Turn(d: Svc, how: Outcome)

  predicate Waits(turn: Turn) {
    turn.d != Running || turn.how == Started
  }

  /** Its events up to the wait. */
  function Head(turn: Turn): seq<Event> {
    [RunRead, RunReport] + if turn.d == Running then [RunStart(turn.how)] else []
  }

  function Whole(turn: Turn): seq<Event> {
    Head(turn) + (if Waits(turn) then [RunWake] else []) + [RunTest]
  }

  function Turns(turns: seq<Turn>): seq<Event> {
    if turns == [] then [] else Turns(turns[..|turns| - 1]) + Whole(turns[|turns| - 1])
  }

  lemma TurnsNext(turns: seq<Turn>, turn: Turn)
    ensures Turns(turns + [turn]) == Turns(turns) + Whole(turn)
  {
    assert (turns + [turn])[..|turns|] == turns;
  }

  /** Why the observation of `Run` ends: the loop has ended, it waits and nobody has alerted it, or as
      many turns as were to be observed are over. */
  datatype RunEnd = Ended | Waiting(turn: Turn) | Observed

  class ServiceBase {
    /** `dwCurrentState`, `dwControlsAccepted`, `dwCheckPoint`, `m_dwTargetState`, and the alert of `m_tid`. */
    var currentState: Svc
    var controlsAccepted: nat
    var checkPoint: nat
    var targetState: Svc
    var alerted: bool
    /** The states reported with `SetServiceStatus`. */
    var reports: seq<Svc>
    ghost var s: State
    ghost var trace: seq<Event>

    ghost predicate Valid()
      reads this
    {
      && Run(trace) == Some(s) && currentState == s.current && controlsAccepted == s.accepted
      && checkPoint == s.checkPoint
      && targetState == s.target && alerted == s.alerted && reports == s.reported
    }

    /** `ServiceMain` up to the call of `Run`. */
    constructor ()
      ensures Valid() && s == Fresh && trace == []
    {
      targetState, currentState, controlsAccepted, checkPoint := Running, StartPending, 0, 1;
      alerted, reports, s, trace := false, [], Fresh, [];
      new;
      RunEmpty();
    }

    /** Any number of steps of other threads. */
    method Others(ghost who: Who)
      requires Valid()
      modifies this
      ensures Valid() && Rely(who, old(s), s) && Mine(trace, who) == old(Mine(trace, who)) && old(trace) <= trace
    {
    }

    ghost method Did(e: Event)
      requires Run(trace) == Some(s) && Enabled(s, e)
      modifies this`s, this`trace
      ensures s == Step(old(s), e) && trace == old(trace) + [e] && Run(trace) == Some(s)
      ensures Mine(trace, By(e)) == old(Mine(trace, By(e))) + [e]
    {
      Extend(trace, e);
      MineNext(trace, e, By(e));
      s, trace := Step(s, e), trace + [e];
    }

    method BeginChangeState(mustAccept: bool, newState: Svc, target: Svc) returns (ok: bool)
      modifies this`currentState, this`controlsAccepted, this`checkPoint, this`targetState
      ensures ok <==> old(checkPoint) == 0 && mustAccept
      ensures if ok then currentState == newState && checkPoint == 1 && targetState == target
                         && controlsAccepted == old(controlsAccepted) - old(controlsAccepted) % 4
              else currentState == old(currentState) && checkPoint == old(checkPoint) && targetState == old(targetState)
                   && controlsAccepted == old(controlsAccepted)
    {
      if checkPoint != 0 || !mustAccept {
        return false;
      }
      currentState := newState;
      checkPoint := 1;
      controlsAccepted := controlsAccepted - controlsAccepted % 4;
      targetState := target;
      return true;
    }

    /** The switch of `PreHandler`, under the state lock. */
    method TryControl(c: Control) returns (accepted: bool)
      requires Valid()
      modifies this`currentState, this`controlsAccepted, this`checkPoint, this`targetState
      ensures accepted <==>
                && old(checkPoint) == 0
                && match c
                   case Continue => old(currentState) == Paused && old(controlsAccepted) / 2 % 2 == 1
                   case Pause => old(currentState) == Running && old(controlsAccepted) / 2 % 2 == 1
                   case Stop => old(controlsAccepted) % 2 == 1
      ensures accepted ==>
                && checkPoint == 1 && controlsAccepted == old(controlsAccepted) / 4 * 4
                && match c
                   case Continue => currentState == ContinuePending && targetState == Running
                   case Pause => currentState == PausePending && targetState == Paused
                   case Stop => currentState == StopPending && targetState == Stopped
      ensures !accepted ==>
                && currentState == old(currentState) && checkPoint == old(checkPoint)
                && targetState == old(targetState) && controlsAccepted == old(controlsAccepted)
    {
      hide Run;
      match c {
      case Continue =>
        accepted := currentState == Paused;
        if accepted {
          accepted := BeginChangeState(AcceptsPauseContinue(controlsAccepted), ContinuePending, Running);
        }
      case Pause =>
        accepted := currentState == Running;
        if accepted {
          accepted := BeginChangeState(AcceptsPauseContinue(controlsAccepted), PausePending, Paused);
        }
      case Stop =>
        accepted := BeginChangeState(AcceptsStop(controlsAccepted), StopPending, Stopped);
      }
    }

    /** `PreHandler`: accepts a control exactly in the states that accept it, and then the change is pending. */
    method PreHandler(ghost h: nat, c: Control, statusOk: bool) returns (accepted: bool)
      requires Valid() && h !in s.handlers
      modifies this
      ensures Valid() && Mine(trace, AHandler(h)) == old(Mine(trace, AHandler(h))) + [Ask(h, c, statusOk)]
      ensures trace == old(trace) + [Ask(h, c, statusOk)] && (accepted <==> Accepts(old(s), c))
      ensures accepted ==>
                s.checkPoint == 1 && s.accepted == 0 && s.current == PendingState(c) && s.target == TargetState(c)
      ensures h in s.handlers <==> accepted && statusOk
    {
      hide Run, Mine, Accepts;
      AskIs(s, h, c, statusOk);
      AcceptsIs(s, c);
      accepted := TryControl(c);
      Did(Ask(h, c, statusOk));
    }

    /** `HandlerEx`: a control that is accepted, and whose status call succeeds, alerts `Run` exactly
        once; any other has no effect on it. */
    method HandlerEx(ghost h: nat, c: Control, statusOk: bool) returns (accepted: bool, ghost at: nat)
      requires Valid() && h !in s.handlers
      modifies this
      ensures Valid() && old(trace) <= trace && h !in s.handlers
      ensures Mine(trace, AHandler(h)) ==
              old(Mine(trace, AHandler(h))) + [Ask(h, c, statusOk)] + if accepted && statusOk then [AlertRun(h)] else []
      ensures |old(trace)| <= at < |trace| && trace[at] == Ask(h, c, statusOk) && Run(trace[..at]).Some?
      ensures var x := Run(trace[..at]).value;
              accepted <==>
                && x.checkPoint == 0
                && match c
                   case Continue => x.current == Paused && x.accepted / 2 % 2 == 1
                   case Pause => x.current == Running && x.accepted / 2 % 2 == 1
                   case Stop => x.accepted % 2 == 1
      ensures Run(trace[..at + 1]).Some?
      ensures accepted ==>
                var y := Run(trace[..at + 1]).value;
                && y.checkPoint == 1 && y.accepted == 0
                && match c
                   case Continue => y.current == ContinuePending && y.target == Running
                   case Pause => y.current == PausePending && y.target == Paused
                   case Stop => y.current == StopPending && y.target == Stopped
    {
      hide Run, Mine;
      Others(AHandler(h));
      ghost var before := trace;
      at := |trace|;
      accepted := PreHandler(h, c, statusOk);
      assert trace[..at] == before;
      ghost var asked := trace;
      if accepted && statusOk {
        Others(AHandler(h));
        alerted := true;
        Did(AlertRun(h));
      }
      assert asked <= trace;
      assert trace[..at] == asked[..at] && trace[at] == asked[at] && trace[..at + 1] == asked;
    }

    /** `SetState(WaitHint)`. */
    method Progress()
      requires Valid()
      modifies this
      ensures Valid() && old(trace) <= trace && (s.checkPoint != 0 <==> IsPending(s.current))
      ensures trace != [] && trace[|trace| - 1] == Hint && Run(trace[..|trace| - 1]).Some?
      ensures var x := Run(trace[..|trace| - 1]).value;
              && checkPoint == (if x.checkPoint == 0 then 0 else x.checkPoint + 1)
              && currentState == x.current && targetState == x.target && controlsAccepted == x.accepted
    {
      hide Run, Mine;
      Others(Anybody);
      ghost var before := trace;
      if checkPoint != 0 {
        checkPoint := checkPoint + 1;
      }
      Did(Hint);
      assert trace[..|trace| - 1] == before;
      PendingNow(trace, s);
    }

    /** `SetState(NewState, ControlsAccepted, ...)`, under the state lock. */
    method SetState(d: Svc, accept: nat)
      requires Valid()
      modifies this`currentState, this`controlsAccepted, this`checkPoint, this`reports
      ensures old(currentState) == d ==>
                && currentState == d && controlsAccepted == old(controlsAccepted) && checkPoint == old(checkPoint)
                && reports == old(reports)
      ensures old(currentState) != d ==>
                currentState == d && controlsAccepted == accept && checkPoint == 0 && reports == old(reports) + [d]
    {
      if currentState != d {
        currentState, controlsAccepted, checkPoint := d, accept, 0;
        reports := reports + [d];
      }
    }

    method ReadTheTarget() returns (d: Svc)
      requires Valid() && s.run == ReadTarget
      modifies this
      ensures Valid() && old(trace) <= trace && s.run == Report(d) && d == targetState
      ensures Mine(trace, MainThread) == old(Mine(trace, MainThread)) + [RunRead]
    {
      hide Run, Mine;
      Others(MainThread);
      d := targetState;
      Did(RunRead);
    }

    /** The head of the loop body of `Run`: the target that was read is made current, if it is not. */
    method ReportTarget() returns (d: Svc)
      requires Valid() && s.run == ReadTarget
      modifies this
      ensures Valid() && old(trace) <= trace && s.run == (if d == Running then Startup else WaitAlert)
      ensures Mine(trace, MainThread) == old(Mine(trace, MainThread)) + [RunRead, RunReport]
      ensures currentState == d
    {
      hide Run, Mine;
      d := ReadTheTarget();
      Others(MainThread);
      ReportIs(s, d);
      SetState(d, ACCEPT_STOP + ACCEPT_PAUSE_CONTINUE);
      Did(RunReport);
    }

    method StartServer() returns (how: Outcome)
      requires Valid() && s.run == Startup
      modifies this
      ensures Valid() && old(trace) <= trace && s.run == (if how == Started then WaitAlert else TestTarget)
      ensures Mine(trace, MainThread) == old(Mine(trace, MainThread)) + [RunStart(how)]
      ensures how == ServerFailed ==> targetState == Stopped
    {
      hide Run, Mine;
      Others(MainThread);
      how := *;
      if how == ServerFailed {
        targetState := Stopped;
      }
      Did(RunStart(how));
    }

    /** The loop body of `Run` up to the wait. */
    method BeginTurn() returns (turn: Turn)
      requires Valid() && s.run == ReadTarget
      modifies this
      ensures Valid() && old(trace) <= trace && Mine(trace, MainThread) == old(Mine(trace, MainThread)) + Head(turn)
      ensures s.run == if Waits(turn) then WaitAlert else TestTarget
    {
      hide Run, Mine;
      var d := ReportTarget();
      turn := Turn(d, Started);
      if d == Running {
        var how := StartServer();
        turn := Turn(d, how);
      }
    }

    /** And from the wait on: it is woken only by an alert, and then tests the target. */
    method EndTurn(turn: Turn) returns (woken: bool, again: bool)
      requires Valid() && s.run == if Waits(turn) then WaitAlert else TestTarget
      modifies this
      ensures Valid() && old(trace) <= trace && (!Waits(turn) ==> woken)
      ensures Mine(trace, MainThread) ==
              old(Mine(trace, MainThread)) + if woken then (if Waits(turn) then [RunWake] else []) + [RunTest] else []
      ensures if !woken then s.run == WaitAlert else s.run == if again then ReadTarget else Exited
      ensures woken ==> (again <==> targetState != Stopped)
    {
      hide Run, Mine;
      woken, again := true, false;
      if Waits(turn) {
        Others(MainThread);
        if !alerted {
          return false, false;
        }
        alerted := false;
        Did(RunWake);
      }
      Others(MainThread);
      again := targetState != Stopped;
      Did(RunTest);
    }

    /** One turn of the loop in `Run`. */
    method OneTurn() returns (turn: Turn, woken: bool, again: bool)
      requires Valid() && s.run == ReadTarget
      modifies this
      ensures Valid() && old(trace) <= trace
      ensures Mine(trace, MainThread) == old(Mine(trace, MainThread)) + if woken then Whole(turn) else Head(turn)
      ensures if !woken then s.run == WaitAlert else s.run == if again then ReadTarget else Exited
    {
      hide Run, Mine, Head, Whole;
      turn := BeginTurn();
      woken, again := EndTurn(turn);
      WholeIs(turn);
    }

    /** `Run`, observed for a number of turns. */
    method RunService(limit: nat) returns (end: RunEnd, ghost turns: seq<Turn>)
      requires Valid() && s.run == ReadTarget
      modifies this
      ensures Valid() && old(trace) <= trace
      ensures Mine(trace, MainThread) ==
              old(Mine(trace, MainThread)) + Turns(turns) + if end.Waiting? then Head(end.turn) else []
      ensures match end
              case Ended => s.run == Exited
              case Waiting(_) => s.run == WaitAlert
              case Observed => s.run == ReadTarget && |turns| == limit
    {
      hide Run, Mine, Head, Whole, Turns;
      turns := [];
      NoTurns();
      ghost var mine := Mine(trace, MainThread);
      var n := 0;
      while n < limit
        invariant Valid() && old(trace) <= trace && s.run == ReadTarget && |turns| == n <= limit
        invariant Mine(trace, MainThread) == mine + Turns(turns)
      {
        var turn, woken, again := OneTurn();
        if !woken {
          return Waiting(turn), turns;
        }
        TurnsNext(turns, turn);
        turns, n := turns + [turn], n + 1;
        if !again {
          return Ended, turns;
        }
      }
      end := Observed;
    }

    /** The rest of `ServiceMain`: `Run`, and, when it has ended, the report that the service is stopped. */
    method ServiceMain(limit: nat) returns (end: RunEnd, ghost turns: seq<Turn>)
      requires Valid() && s.run == ReadTarget
      modifies this
      ensures Valid() && old(trace) <= trace
      ensures end == Ended ==>
                && s.run == Done && s.current == Stopped && s.checkPoint == 0
                && Mine(trace, MainThread) == old(Mine(trace, MainThread)) + Turns(turns) + [MainEnds]
    {
      hide Run, Mine, Turns, Head;
      end, turns := RunService(limit);
      if end == Ended {
        Others(MainThread);
        EndIs(trace, s);
        SetState(Stopped, 0);
        Did(MainEnds);
      }
    }
  }

  lemma WholeIs(turn: Turn)
    ensures Whole(turn) == Head(turn) + (if Waits(turn) then [RunWake] else []) + [RunTest]
  {
  }

  lemma NoTurns()
    ensures Turns([]) == []
  {
  }

  lemma AskIs(s: State, h: nat, c: Control, statusOk: bool)
    requires h !in s.handlers
    ensures var s' := Step(s, Ask(h, c, statusOk));
            && s'.alerted == s.alerted && s'.reported == s.reported && (h in s'.handlers <==> Accepts(s, c) && statusOk)
            && if Accepts(s, c) then s'.current == PendingState(c) && s'.checkPoint == 1 && s'.target == TargetState(c)
                                     && s'.accepted == s.accepted - s.accepted % 4
               else s' == s
  {
    hide Accepts;
  }

  lemma AcceptsIs(s: State, c: Control)
    ensures Accepts(s, c) <==>
              && s.checkPoint == 0
              && match c
                 case Continue => s.current == Paused && s.accepted / 2 % 2 == 1
                 case Pause => s.current == Running && s.accepted / 2 % 2 == 1
                 case Stop => s.accepted % 2 == 1
  {
  }

  lemma PendingNow(trace: seq<Event>, s: State)
    requires Run(trace) == Some(s)
    ensures s.checkPoint != 0 <==> IsPending(s.current)
  {
  }

  lemma EndIs(trace: seq<Event>, s: State)
    requires Run(trace) == Some(s) && s.run == Exited
    ensures var s' := Step(s, MainEnds);
            s'.current == Stopped && s'.checkPoint == 0 && s'.target == s.target && s'.alerted == s.alerted
  {
  }

  lemma ReportIs(s: State, d: Svc)
    requires s.run == Report(d)
    ensures var s' := Step(s, RunReport);
            && s'.current == d
            && s'.accepted == (if s.current == d then s.accepted else 3)
            && s'.checkPoint == (if s.current == d then s.checkPoint else 0)
            && s'.reported == (if s.current == d then s.reported else s.reported + [d])
            && s'.target == s.target && s'.alerted == s.alerted && s'.run == if d == Running then Startup else WaitAlert
  {
  }
}
