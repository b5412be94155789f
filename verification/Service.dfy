/** The service state machine: control handlers change the pending state under a lock and
    then alert the thread in `CSvc::Run`, which reports each target it reads. The alert is the
    one of module Alert: a wait ends exactly when an alert was committed since the last one. */
module Service {
  import opened Words

  datatype Svc = Stopped | StartPending | StopPending | Running | ContinuePending | PausePending | Paused

  datatype Control = Continue | Pause | Stop

  const ACCEPT_STOP: nat := 1
  const ACCEPT_PAUSE_CONTINUE: nat := 2

  predicate IsPending(x: Svc) {
    x == StartPending || x == StopPending || x == ContinuePending || x == PausePending
  }

  datatype RunPc = ReadTarget | Report(d: Svc) | Startup | WaitAlert | TestTarget | Exited | Done

  datatype Outcome = Started | ServerFailed | RuntimeFailed

  /** What the control manager can observe: a target it was promised, a state it was told. */
  datatype Observation = Accepted(x: Svc) | Reported(x: Svc)

  /** `handlers` are accepted controls whose handler has not alerted yet; `wanted` the targets
      accepted so far (the first is that of ServiceMain), `reported` those made current. `due`
      says that the last accepted target was not reported since, `missed` counts the targets
      that were not reported before the next one was accepted. */
  datatype State = State(
    current: Svc, accepted: nat, checkPoint: nat, target: Svc,
    alerted: bool, handlers: set<nat>, run: RunPc, wanted: seq<Svc>, reported: seq<Svc>,
    due: bool, missed: nat, history: seq<Observation>)

  datatype Event =
    | Ask(h: nat, c: Control, statusOk: bool)
    | Hint
    | AlertRun(h: nat)
    | RunRead
    | RunReport
    | RunStart(how: Outcome)
    | RunWake
    | RunTest
    | MainEnds

  const Fresh := State(StartPending, 0, 1, Running, false, {}, ReadTarget, [Running], [], true, 0, [Accepted(Running)])

  predicate AcceptsStop(accepted: nat) {
    accepted % 2 == 1
  }

  predicate AcceptsPauseContinue(accepted: nat) {
    accepted / 2 % 2 == 1
  }

  /** The guard of `PreHandler` and `BeginChangeState` together. */
  predicate Accepts(s: State, c: Control) {
    && s.checkPoint == 0
    && match c
       case Continue => s.current == Paused && AcceptsPauseContinue(s.accepted)
       case Pause => s.current == Running && AcceptsPauseContinue(s.accepted)
       case Stop => AcceptsStop(s.accepted)
  }

  function PendingState(c: Control): Svc {
    match c case Continue => ContinuePending case Pause => PausePending case Stop => StopPending
  }

  function TargetState(c: Control): Svc {
    match c case Continue => Running case Pause => Paused case Stop => Stopped
  }

  predicate Enabled(s: State, e: Event) {
    match e
    case Ask(h, _, _) => h !in s.handlers
    case Hint => true
    case AlertRun(h) => h in s.handlers
    case RunRead => s.run == ReadTarget
    case RunReport => s.run.Report?
    case RunStart(_) => s.run == Startup
    case RunWake => s.run == WaitAlert && s.alerted
    case RunTest => s.run == TestTarget
    case MainEnds => s.run == Exited
  }

  /** The accept mask loses both bits: the constant the code clears is the union of three
      control codes, 1, 2 and 3. */
  function Asked(s: State, h: nat, c: Control, statusOk: bool): State {
    if !Accepts(s, c) then s
    else
      s.(current := PendingState(c), checkPoint := 1, accepted := s.accepted - s.accepted % 4,
         target := TargetState(c), wanted := s.wanted + [TargetState(c)],
         handlers := if statusOk then s.handlers + {h} else s.handlers,
         due := true, missed := if s.due then s.missed + 1 else s.missed,
         history := s.history + [Accepted(TargetState(c))])
  }

  function SetState(s: State, d: Svc, accepted: nat): State {
    if s.current == d then s
    else s.(current := d, accepted := accepted, checkPoint := 0, reported := s.reported + [d],
            due := s.due && s.wanted != [] && d != s.wanted[|s.wanted| - 1],
            history := s.history + [Reported(d)])
  }

  function Step(s: State, e: Event): State
    requires Enabled(s, e)
  {
    match e
    case Ask(h, c, statusOk) => Asked(s, h, c, statusOk)
    case Hint => if s.checkPoint != 0 then s.(checkPoint := s.checkPoint + 1) else s
    case AlertRun(h) => s.(alerted := true, handlers := s.handlers - {h})
    case RunRead => s.(run := Report(s.target))
    case RunReport =>
      var d := s.run.d;
      SetState(s, d, ACCEPT_STOP + ACCEPT_PAUSE_CONTINUE).(run := if d == Running then Startup else WaitAlert)
    case RunStart(how) =>
      (match how
       case Started => s.(run := WaitAlert)
       case ServerFailed => s.(target := Stopped, run := TestTarget)
       case RuntimeFailed => s.(run := TestTarget))
    case RunWake => s.(alerted := false, run := TestTarget)
    case RunTest => s.(run := if s.target == Stopped then Exited else ReadTarget)
    case MainEnds => SetState(s, Stopped, 0).(run := Done)
  }

  // ---- What holds in every run -------------------------------------------------------

  /** The check point is nonzero exactly in the pending states, and then nothing is accepted. */
  predicate PendingOk(s: State) {
    && (s.checkPoint != 0 <==> IsPending(s.current))
    && (IsPending(s.current) ==> s.accepted == 0)
    && s.accepted <= 3
    && (s.run.Report? ==> !IsPending(s.run.d))
    && !IsPending(s.target)
  }

  lemma PendingKept(s: State, e: Event)
    requires PendingOk(s) && Enabled(s, e)
    ensures PendingOk(Step(s, e))
    ensures e.Ask? && IsPending(s.current) ==> Step(s, e) == s
  {
  }

  // ---- Healthy runs ------------------------------------------------------------------

  /** Startup and the status calls succeed. */
  predicate Healthy(e: Event) {
    (e.Ask? ==> e.statusOk) && (e.RunStart? ==> e.how == Started)
  }

  /** An accepted target that is not reported yet is on its way to Run: its handler is about
      to alert, the alert is pending, or Run has been woken and will read it. */
  predicate OnItsWay(s: State) {
    match s.run
    case ReadTarget | Report(_) | TestTarget | Exited =>
      s.handlers == {} && !s.alerted && s.checkPoint != 0 && (s.run.Report? ==> s.run.d == s.target)
      && (s.run == Exited ==> s.target == Stopped) && (s.run == ReadTarget || s.run.Report? ==> s.target != Stopped)
    case Startup | WaitAlert =>
      if s.checkPoint == 0 then s.handlers == {} && !s.alerted && s.current == s.target
      else |s.handlers| + (if s.alerted then 1 else 0) == 1
    case Done => s.current == Stopped && s.checkPoint == 0 && s.accepted == 0 && s.handlers == {} && !s.alerted
  }

  /** Every accepted target is reported, in order: all of them between controls, all but the
      pending one while a change is in progress. */
  predicate InOrder(s: State) {
    && |s.wanted| > 0 && s.target == s.wanted[|s.wanted| - 1]
    && s.reported == if s.checkPoint == 0 then s.wanted else s.wanted[..|s.wanted| - 1]
  }

  predicate HealthyInv(s: State) {
    PendingOk(s) && OnItsWay(s) && InOrder(s)
  }

  lemma AskKept(s: State, h: nat, c: Control)
    requires HealthyInv(s) && Enabled(s, Ask(h, c, true))
    ensures HealthyInv(Step(s, Ask(h, c, true)))
  {
    if Accepts(s, c) {
      assert s.handlers == {};
      assert Step(s, Ask(h, c, true)).handlers == {h};
    }
  }

  lemma RunKept(s: State, e: Event)
    requires HealthyInv(s) && Enabled(s, e) && Healthy(e) && !e.Ask? && !e.AlertRun?
    ensures HealthyInv(Step(s, e))
  {
    assert s.handlers == {} <==> |s.handlers| == 0;
    hide Accepts, Asked;
  }

  lemma HealthyKept(s: State, e: Event)
    requires HealthyInv(s) && Enabled(s, e) && Healthy(e)
    ensures HealthyInv(Step(s, e))
  {
    if e.Ask? {
      AskKept(s, e.h, e.c);
    } else if e.AlertRun? {
      assert |s.handlers - {e.h}| == |s.handlers| - 1;
      hide Asked, Accepts;
    } else {
      RunKept(s, e);
    }
  }

  ghost function Run(events: seq<Event>): (r: Option<State>)
    ensures r.Some? ==> PendingOk(r.value)
    ensures r.Some? && (forall e :: e in events ==> Healthy(e)) ==> HealthyInv(r.value)
  {
    if events == [] then Some(Fresh)
    else
      var before := Run(events[..|events| - 1]);
      var e := events[|events| - 1];
      if before.None? || !Enabled(before.value, e) then None
      else
        PendingKept(before.value, e);
        if forall e :: e in events ==> Healthy(e) then HealthyKept(before.value, e); Some(Step(before.value, e))
        else Some(Step(before.value, e))
  }

  // ---- Theorems ----------------------------------------------------------------------

  /** Everything accepted is reported in order and a pending target is never stuck: Run has an
      enabled step of its own or the alert that wakes it is about to come. */
  lemma HealthyRuns(events: seq<Event>)
    requires Run(events).Some? && forall e :: e in events ==> Healthy(e)
    ensures var s := Run(events).value;
            && s.reported <= s.wanted
            && |s.wanted| - |s.reported| == (if IsPending(s.current) then 1 else 0)
            && (IsPending(s.current) ==> exists e :: Enabled(s, e) && Healthy(e) && !e.Ask? && !e.Hint?)
  {
    var s := Run(events).value;
    hide Run;
    if s.checkPoint != 0 {
      var e := match s.run
        case ReadTarget => RunRead
        case Report(_) => RunReport
        case Startup => RunStart(Started)
        case WaitAlert => if s.alerted then RunWake else var h :| h in s.handlers; AlertRun(h)
        case TestTarget => RunTest
        case _ => MainEnds;
      assert Enabled(s, e) && Healthy(e);
    }
  }

  lemma RunEmpty()
    ensures Run([]) == Some(Fresh)
  {
  }

  lemma Extend(events: seq<Event>, e: Event)
    ensures Run(events + [e]) == if Run(events).None? || !Enabled(Run(events).value, e) then None
                                 else Some(Step(Run(events).value, e))
  {
    assert (events + [e])[..|events|] == events;
  }

  lemma Next(events: seq<Event>, s: State, e: Event) returns (events': seq<Event>, s': State)
    requires Run(events) == Some(s) && Enabled(s, e)
    ensures events' == events + [e] && Run(events') == Some(s') && s' == Step(s, e)
  {
    Extend(events, e);
    events', s' := events + [e], Step(s, e);
  }
}
