/** Exactly when the service loses a target it accepted: for every run, with failing startups and
    failing status calls, each accepted target is reported before the next one is accepted, and
    the last one still can be, if and only if none of a few events happens. */
module ServiceLoss {
  import opened Words
  import opened Service

  // ---- What the history variables mean -----------------------------------------------

  /** The open target of a history, and how many targets were never answered. */
  function Tally(h: seq<Observation>): (r: (Option<Svc>, nat)) {
    if h == [] then (None, 0)
    else
      var (open, missed) := Tally(h[..|h| - 1]);
      match h[|h| - 1]
      case Accepted(x) => (Some(x), if open.Some? then missed + 1 else missed)
      case Reported(x) => (if open == Some(x) then None else open, missed)
  }

  function Last(s: State): Svc
    requires s.wanted != []
  {
    s.wanted[|s.wanted| - 1]
  }

  /** What holds in every run: the target is the last accepted one unless a failed start
      overwrote it, which ends the loop or is repaired by the next accepted control. */
  predicate Base(s: State) {
    && PendingOk(s) && s.wanted != [] && !IsPending(Last(s))
    && (s.due ==> s.current != Last(s))
    && (s.target != Last(s) ==> s.target == Stopped && (s.run == TestTarget || s.run == Exited || s.run == Done))
    && (s.checkPoint != 0 ==> s.due)
    && (s.run == Exited && s.target != Stopped ==> s.due)
  }

  predicate Tallied(s: State) {
    s.wanted != [] && Tally(s.history) == (if s.due then Some(Last(s)) else None, s.missed)
  }

  lemma BaseKept(s: State, e: Event)
    requires Base(s) && Enabled(s, e)
    ensures Base(Step(s, e))
  {
    hide Base, Enabled, Step;
    match e
    case Ask(_, _, _) => BaseAsked(s, e);
    case RunReport | MainEnds => BaseTold(s, e);
    case _ => BaseMoved(s, e);
  }

  lemma BaseAsked(s: State, e: Event)
    requires Base(s) && Enabled(s, e) && e.Ask?
    ensures Base(Step(s, e))
  {
    PendingKept(s, e);
    hide PendingOk;
  }

  lemma BaseTold(s: State, e: Event)
    requires Base(s) && Enabled(s, e) && (e.RunReport? || e.MainEnds?)
    ensures Base(Step(s, e))
  {
    PendingKept(s, e);
    hide PendingOk, Accepts, Asked;
  }

  lemma BaseMoved(s: State, e: Event)
    requires Base(s) && Enabled(s, e) && !e.Ask? && !e.RunReport? && !e.MainEnds?
    ensures Base(Step(s, e))
  {
    PendingKept(s, e);
    hide PendingOk, Accepts, Asked;
  }

  lemma TallyNext(h: seq<Observation>, o: Observation)
    ensures var (open, missed) := Tally(h);
            Tally(h + [o]) == match o
                              case Accepted(x) => (Some(x), if open.Some? then missed + 1 else missed)
                              case Reported(x) => (if open == Some(x) then None else open, missed)
  {
    assert (h + [o])[..|h|] == h;
  }

  lemma TalliedKept(s: State, e: Event)
    requires Tallied(s) && Enabled(s, e)
    ensures Tallied(Step(s, e))
  {
    hide Tally;
    if e.Ask? {
      TallyNext(s.history, Accepted(TargetState(e.c)));
      hide Accepts;
    } else if e.RunReport? {
      TallyNext(s.history, Reported(s.run.d));
    } else if e.MainEnds? {
      TallyNext(s.history, Reported(Stopped));
    }
  }

  // ---- Losing events -----------------------------------------------------------------

  /** Nobody is going to wake Run. */
  predicate Unattended(s: State) {
    s.handlers == {} && !s.alerted
  }

  /** The due target cannot be reported any more without another control being accepted. */
  predicate Doomed(s: State)
    requires s.wanted != []
  {
    s.due &&
    (|| s.target != Last(s)
     || s.run == Done
     || (s.run == Exited && Last(s) != Stopped)
     || (s.run == WaitAlert && Unattended(s))
     || (s.run.Report? && s.run.d != Last(s) && s.run.d != Running && Unattended(s)))
  }

  /** A control is accepted although the previous target is still open; or after the loop has
      ended; or while Run waits, or is about to, and its failed status call keeps the handler
      from alerting. A start fails over an open target other than stopping, or succeeds
      over one that nobody will announce. */
  predicate Losing(s: State, e: Event)
    requires s.wanted != [] && Enabled(s, e)
  {
    match e
    case Ask(_, c, ok) => Accepts(s, c) &&
      (|| s.due
       || s.run == Done
       || (s.run == Exited && c != Stop)
       || (!ok && Unattended(s) &&
           (s.run == WaitAlert || (s.run.Report? && s.run.d != Running && s.run.d != TargetState(c)))))
    case RunStart(how) => s.due &&
      ((how == ServerFailed && s.target != Stopped) || (how == Started && Unattended(s)))
    case _ => false
  }

  /** Nothing is lost so far, and the open target still can be reported. */
  predicate Sound(s: State)
    requires s.wanted != []
  {
    s.missed == 0 && !Doomed(s)
  }

  /** One event keeps this exactly if it is not a losing one. */
  lemma LosingExact(s: State, e: Event)
    requires Base(s) && Enabled(s, e) && Sound(s)
    ensures Step(s, e).wanted != [] && (Sound(Step(s, e)) <==> !Losing(s, e))
  {
    BaseKept(s, e);
    hide PendingOk, Base;
    assert Base(s);
    if e.Ask? {
      AskExact(s, e);
    } else {
      RunExact(s, e);
    }
  }

  lemma AskExact(s: State, e: Event)
    requires Base(s) && Enabled(s, e) && Sound(s) && e.Ask?
    ensures Step(s, e).wanted != [] && (Sound(Step(s, e)) <==> !Losing(s, e))
  {
    hide PendingOk;
    if Accepts(s, e.c) && e.statusOk {
      assert e.h in Step(s, e).handlers;
    }
  }

  lemma RunExact(s: State, e: Event)
    requires Base(s) && Enabled(s, e) && Sound(s) && !e.Ask?
    ensures Step(s, e).wanted != [] && (Sound(Step(s, e)) <==> !Losing(s, e))
  {
    hide PendingOk, Accepts, Asked;
  }

  /** Once lost, always lost. */
  lemma LossStays(s: State, e: Event)
    requires Base(s) && Enabled(s, e) && !Sound(s)
    ensures Step(s, e).wanted != [] && !Sound(Step(s, e))
    ensures Doomed(s) && Step(s, e).wanted == s.wanted ==> Doomed(Step(s, e)) && Step(s, e).due
  {
    hide PendingOk;
  }

  // ---- Runs --------------------------------------------------------------------------

  lemma FreshBase()
    ensures Run([]) == Some(Fresh) && Base(Fresh) && Tallied(Fresh)
  {
    RunEmpty();
    TallyNext([], Accepted(Running));
    assert [] + [Accepted(Running)] == [Accepted(Running)];
    hide Run;
  }

  lemma {:induction false} RunBase(events: seq<Event>)
    requires Run(events).Some?
    ensures Base(Run(events).value) && Tallied(Run(events).value)
  {
    hide Run, Base, Tallied, Step, Enabled;
    if events == [] {
      FreshBase();
    } else {
      var p, e := events[..|events| - 1], events[|events| - 1];
      assert events == p + [e];
      Extend(p, e);
      RunBase(p);
      BaseKept(Run(p).value, e);
      TalliedKept(Run(p).value, e);
    }
  }

  /** No event of the run was a losing one where it happened. */
  ghost predicate Lossless(events: seq<Event>) {
    events == [] ||
    var p, e := events[..|events| - 1], events[|events| - 1];
    && Lossless(p) && Run(p).Some? && Run(p).value.wanted != [] && Enabled(Run(p).value, e)
    && !Losing(Run(p).value, e)
  }

  lemma {:induction false} SoundIffLossless(events: seq<Event>)
    requires Run(events).Some?
    ensures Run(events).value.wanted != [] && (Sound(Run(events).value) <==> Lossless(events))
  {
    if events == [] {
      RunEmpty();
      hide Run;
    } else {
      var p, e := events[..|events| - 1], events[|events| - 1];
      assert events == p + [e];
      Extend(p, e);
      RunBase(p);
      SoundIffLossless(p);
      hide Run, Base, Step, Enabled, Losing, Sound, Tallied;
      var s := Run(p).value;
      if Sound(s) {
        LosingExact(s, e);
      } else {
        LossStays(s, e);
      }
    }
  }

  /** Run can go on until the open target is reported, without another control. */
  ghost predicate StillReported(events: seq<Event>)
    requires Run(events).Some?
  {
    exists more :: Run(events + more).Some? && !Run(events + more).value.due
                   && Run(events + more).value.wanted == Run(events).value.wanted
  }

  function Rank(s: State): nat {
    match s.run
    case Report(d) => if s.wanted != [] && d == Last(s) then 1 else 6
    case Exited => 1
    case ReadTarget => 2
    case TestTarget => 3
    case Startup => 5
    case WaitAlert => if s.alerted then 4 else 5
    case Done => 0
  }

  /** The next event on the way to the report. */
  lemma Proceed(s: State) returns (e: Event)
    requires Base(s) && s.due && !Doomed(s)
    ensures Enabled(s, e)
    ensures var s' := Step(s, e);
            s'.wanted == s.wanted && (s'.due ==> !Doomed(s') && Rank(s') < Rank(s))
  {
    hide PendingOk, Accepts, Asked;
    match s.run {
      case ReadTarget => e := RunRead;
      case Report(_) => e := RunReport;
      case Startup => e := RunStart(RuntimeFailed);
      case WaitAlert =>
        if s.alerted {
          e := RunWake;
        } else {
          var h :| h in s.handlers;
          e := AlertRun(h);
        }
      case TestTarget => e := RunTest;
      case _ => e := MainEnds;
    }
  }

  lemma {:induction false} Finish(events: seq<Event>, s: State) returns (more: seq<Event>)
    requires Run(events) == Some(s) && Base(s) && s.due && !Doomed(s)
    ensures Run(events + more).Some? && !Run(events + more).value.due && Run(events + more).value.wanted == s.wanted
    decreases Rank(s)
  {
    hide Run, Base, Doomed, Step, Enabled, Rank;
    var e := Proceed(s);
    var events', s' := Next(events, s, e);
    BaseKept(s, e);
    if s'.due {
      var rest := Finish(events', s');
      more := [e] + rest;
      assert events + more == events' + rest;
    } else {
      more := [e];
    }
  }

  lemma {:induction false} DoomedNever(events: seq<Event>, more: seq<Event>)
    requires Run(events).Some? && Run(events + more).Some?
    requires Base(Run(events).value) && Doomed(Run(events).value)
    ensures var s, s' := Run(events).value, Run(events + more).value;
            |s.wanted| <= |s'.wanted| && s.wanted <= s'.wanted
            && (s'.wanted == s.wanted ==> Base(s') && Doomed(s'))
    decreases |more|
  {
    if more == [] {
      assert events + more == events;
    } else {
      var p, e := more[..|more| - 1], more[|more| - 1];
      assert events + more == (events + p) + [e];
      Extend(events + p, e);
      RunBase(events + p);
      DoomedNever(events, p);
      var s := Run(events + p).value;
      hide Run, Base, Doomed, Tallied;
      WantedGrows(s, e);
      if Step(s, e).wanted == s.wanted && Doomed(s) {
        LossStays(s, e);
        BaseKept(s, e);
      }
    }
  }

  lemma WantedGrows(s: State, e: Event)
    requires Enabled(s, e)
    ensures s.wanted <= Step(s, e).wanted
  {
    hide Accepts;
  }

  /** In every run, whatever fails: every accepted target was reported before the next one was
      accepted, and the last one is reported or can still be, if and only if no losing event
      happened. */
  lemma NoTargetLost(events: seq<Event>)
    requires Run(events).Some?
    ensures var s := Run(events).value;
            && Tally(s.history).1 == s.missed && (s.due <==> Tally(s.history).0.Some?)
            && (s.missed == 0 && (s.due ==> StillReported(events)) <==> Lossless(events))
  {
    var s := Run(events).value;
    RunBase(events);
    SoundIffLossless(events);
    hide Run, Base, Lossless, Tally, Losing;
    if s.due {
      if Doomed(s) {
        forall more | Run(events + more).Some? && Run(events + more).value.wanted == s.wanted
          ensures Run(events + more).value.due
        {
          DoomedNever(events, more);
          assert Doomed(Run(events + more).value);
        }
      } else {
        var more := Finish(events, s);
      }
    }
  }

  // ---- Runs that lose a target -------------------------------------------------------

  /** The run that reaches its first start. */
  const Starting := Fresh.(current := Running, accepted := 3, checkPoint := 0, run := Startup,
                           reported := [Running], due := false, history := [Accepted(Running), Reported(Running)])

  function Asking(s: State, x: Svc, pending: Svc, h: nat): State {
    s.(current := pending, accepted := 0, checkPoint := 1, target := x, handlers := s.handlers + {h},
       wanted := s.wanted + [x], due := true, missed := if s.due then s.missed + 1 else s.missed,
       history := s.history + [Accepted(x)])
  }

  function Telling(s: State, x: Svc, accepted: nat, pc: RunPc): State {
    s.(current := x, accepted := accepted, checkPoint := 0, run := pc, reported := s.reported + [x],
       due := s.due && s.wanted != [] && x != s.wanted[|s.wanted| - 1], history := s.history + [Reported(x)])
  }

  lemma AskStep(s: State, h: nat, c: Control)
    requires h !in s.handlers && Accepts(s, c) && s.accepted == 3
    ensures Enabled(s, Ask(h, c, true)) && Step(s, Ask(h, c, true)) == Asking(s, TargetState(c), PendingState(c), h)
  {
  }

  lemma ReportStep(s: State)
    requires s.run == Report(Running) && s.current != Running
    ensures Enabled(s, RunReport) && Step(s, RunReport) == Telling(s, Running, 3, Startup)
  {
  }

  lemma EndStep(s: State)
    requires s.run == Exited && s.current != Stopped
    ensures Enabled(s, MainEnds) && Step(s, MainEnds) == Telling(s, Stopped, 0, Done)
  {
  }

  lemma RunSteps(s: State)
    ensures s.run == ReadTarget ==> Enabled(s, RunRead) && Step(s, RunRead) == s.(run := Report(s.target))
    ensures s.run == Startup ==>
              && Enabled(s, RunStart(ServerFailed))
              && Step(s, RunStart(ServerFailed)) == s.(target := Stopped, run := TestTarget)
              && Enabled(s, RunStart(RuntimeFailed)) && Step(s, RunStart(RuntimeFailed)) == s.(run := TestTarget)
    ensures s.run == TestTarget ==>
              Enabled(s, RunTest) && Step(s, RunTest) == s.(run := if s.target == Stopped then Exited else ReadTarget)
  {
  }

  lemma FirstReport()
    ensures Telling(Fresh.(run := Report(Running)), Running, 3, Startup) == Starting
  {
    assert Fresh.reported + [Running] == [Running];
    assert Fresh.history + [Reported(Running)] == Starting.history;
  }

  lemma ToStarting() returns (events: seq<Event>)
    ensures Run(events) == Some(Starting) && events == [RunRead, RunReport]
  {
    RunEmpty();
    RunSteps(Fresh);
    ReportStep(Fresh.(run := Report(Running)));
    FirstReport();
    hide *;
    var s;
    events, s := Next([], Fresh, RunRead);
    events, s := Next(events, s, RunReport);
  }

  /** A run that ends with a pause promised and a stop told. */
  ghost predicate PauseLost(events: seq<Event>) {
    Run(events).Some? && Run(events).value.run == Done
    && Run(events).value.wanted == [Running, Paused] && Run(events).value.reported == [Running, Stopped]
  }

  lemma AfterAsk(s: State)
    requires s.wanted == [Running] && s.reported == [Running] && s.handlers == {}
    ensures var s' := Asking(s, Paused, PausePending, 0);
            s'.wanted == [Running, Paused] && s'.reported == [Running] && s'.run == s.run && s'.current == PausePending
  {
  }

  lemma AfterEnd(s: State)
    requires s.run == Exited && s.wanted == [Running, Paused] && s.reported == [Running]
    ensures var s' := Telling(s, Stopped, 0, Done);
            s'.run == Done && s'.wanted == [Running, Paused] && s'.reported == [Running, Stopped]
  {
  }

  /** A pause accepted while the server fails to start is overwritten by the stop. */
  lemma FailedStartLoses()
    ensures exists events :: PauseLost(events)
  {
    AskStep(Starting, 0, Pause);
    AfterAsk(Starting);
    hide Run, Step, Enabled, Accepts, Asking, Telling;
    var events := ToStarting();
    var s: State;
    events, s := Next(events, Starting, Ask(0, Pause, true));
    RunSteps(s);
    events, s := Next(events, s, RunStart(ServerFailed));
    RunSteps(s);
    events, s := Next(events, s, RunTest);
    EndStep(s);
    AfterEnd(s);
    events, s := Next(events, s, MainEnds);
    assert PauseLost(events);
  }

  /** A pause accepted after the loop has ended is never reported. */
  lemma ExitedLoses()
    ensures exists events :: PauseLost(events)
  {
    RunSteps(Starting);
    AskStep(Starting.(target := Stopped, run := Exited), 0, Pause);
    AfterAsk(Starting.(target := Stopped, run := Exited));
    hide Run, Step, Enabled, Accepts, Asking, Telling;
    var events := ToStarting();
    var s: State;
    events, s := Next(events, Starting, RunStart(ServerFailed));
    RunSteps(s);
    events, s := Next(events, s, RunTest);
    events, s := Next(events, s, Ask(0, Pause, true));
    EndStep(s);
    AfterEnd(s);
    events, s := Next(events, s, MainEnds);
    assert PauseLost(events);
  }

  lemma Erased(s: State)
    requires s == Asking(Starting.(run := Report(Running)), Paused, PausePending, 0)
    ensures s.run == Report(Running) && s.current != Running
    ensures var s' := Telling(s, Running, 3, Startup);
            s'.missed == 0 && s'.due && s'.run == Startup && 1 !in s'.handlers && Accepts(s', Stop) && s'.accepted == 3
  {
  }

  lemma Overwritten(s: State)
    requires s.missed == 0 && s.due && s.run == Startup
    ensures Asking(s, Stopped, StopPending, 1).missed == 1 && Asking(s, Stopped, StopPending, 1).run == Startup
  {
  }

  /** No status call and no server start failed. */
  predicate Mild(events: seq<Event>) {
    forall e :: e in events ==> (e.Ask? ==> e.statusOk) && (e.RunStart? ==> e.how != ServerFailed)
  }

  /** A control accepted between the read and the report of Run is erased by the report, and the
      next one overwrites it, although every status call and every server start succeeded and
      the loop goes on: it takes only a failed run-time start, after which Run reads its old
      target again. */
  lemma ErasedTargetLost()
    ensures exists events :: Mild(events) && Run(events).Some? && Run(events).value.missed == 1
                             && Run(events).value.run == Startup
  {
    RunSteps(Starting);
    AskStep(Starting.(run := Report(Running)), 0, Pause);
    hide Run, Step, Enabled, Accepts, Asking, Telling, Mild;
    var events := ToStarting();
    var s: State;
    events, s := Next(events, Starting, RunStart(RuntimeFailed));
    RunSteps(s);
    events, s := Next(events, s, RunTest);
    RunSteps(s);
    events, s := Next(events, s, RunRead);
    events, s := Next(events, s, Ask(0, Pause, true));
    Erased(s);
    ReportStep(s);
    events, s := Next(events, s, RunReport);
    AskStep(s, 1, Stop);
    Overwritten(s);
    events, s := Next(events, s, Ask(1, Stop, true));
    MildRun(events);
  }

  lemma MildRun(events: seq<Event>)
    requires events == [RunRead, RunReport] + [RunStart(RuntimeFailed)] + [RunTest] + [RunRead] + [Ask(0, Pause, true)]
                       + [RunReport] + [Ask(1, Stop, true)]
    ensures Mild(events)
  {
  }

  // ---- Pause and continue ------------------------------------------------------------

  lemma AlertSteps(s: State, h: nat)
    requires s.run == WaitAlert && !s.alerted && s.handlers == {h}
    ensures Enabled(s, AlertRun(h)) && Step(s, AlertRun(h)) == s.(handlers := {}, alerted := true)
    ensures var s' := s.(handlers := {}, alerted := true);
            Enabled(s', RunWake) && Step(s', RunWake) == s.(handlers := {}, run := TestTarget)
  {
    assert s.handlers - {h} == {};
    hide Accepts, Asked;
  }

  lemma ReportSteps(s: State, d: Svc)
    requires s.run == Report(d) && s.current != d
    ensures Enabled(s, RunReport)
    ensures Step(s, RunReport) == Telling(s, d, 3, if d == Running then Startup else WaitAlert)
  {
    hide Accepts, Asked;
  }

  /** A handler alerts `Run`, which reads the target and reports it. */
  lemma Wakes(events: seq<Event>, s: State, h: nat) returns (events': seq<Event>, s': State)
    requires Run(events) == Some(s) && s.run == WaitAlert && !s.alerted && s.handlers == {h}
    requires s.target != Stopped && s.current != s.target
    ensures events' == events + [AlertRun(h), RunWake, RunTest, RunRead, RunReport] && Run(events') == Some(s')
    ensures s' == Telling(s.(handlers := {}), s.target, 3, if s.target == Running then Startup else WaitAlert)
  {
    AlertSteps(s, h);
    hide Run, Step, Enabled;
    events', s' := Next(events, s, AlertRun(h));
    events', s' := Next(events', s', RunWake);
    RunSteps(s');
    events', s' := Next(events', s', RunTest);
    RunSteps(s');
    events', s' := Next(events', s', RunRead);
    ReportSteps(s', s.target);
    events', s' := Next(events', s', RunReport);
  }

  /** A control that is not accepted changes nothing. */
  lemma Refused(events: seq<Event>, s: State, h: nat, c: Control) returns (events': seq<Event>)
    requires Run(events) == Some(s) && h !in s.handlers && !Accepts(s, c)
    ensures events' == events + [Ask(h, c, true)] && Run(events') == Some(s)
  {
    hide Run, Accepts;
    var s';
    events', s' := Next(events, s, Ask(h, c, true));
  }

  /** The service runs, is asked to continue, to pause, to pause again, and to continue. */
  const PAUSE_AND_CONTINUE := [
    RunRead, RunReport, RunStart(Started), Ask(0, Continue, true),
    Ask(0, Pause, true), AlertRun(0), RunWake, RunTest, RunRead, RunReport, Ask(0, Pause, true),
    Ask(0, Continue, true), AlertRun(0), RunWake, RunTest, RunRead, RunReport]

  lemma Asks(s: State)
    requires s.accepted == 3 && s.checkPoint == 0
    ensures s.current == Running ==> !Accepts(s, Continue) && Accepts(s, Pause)
    ensures s.current == Paused ==> !Accepts(s, Pause) && Accepts(s, Continue)
    ensures PendingState(Pause) == PausePending && PendingState(Continue) == ContinuePending
    ensures TargetState(Pause) == Paused && TargetState(Continue) == Running
  {
  }

  /** A continue is refused while running and accepted when paused, a pause the other way round; each
      accepted one is reported before the next. */
  lemma PausedAndContinued()
    ensures Run(PAUSE_AND_CONTINUE).Some?
    ensures var s := Run(PAUSE_AND_CONTINUE).value;
            && s.history == [Accepted(Running), Reported(Running), Accepted(Paused), Reported(Paused),
                             Accepted(Running), Reported(Running)]
            && s.current == Running && s.accepted == 3 && s.checkPoint == 0
  {
    hide Run, Accepts, PAUSE_AND_CONTINUE;
    var events := ToStarting();
    var s := Starting;
    events, s := Next(events, s, RunStart(Started));
    Asks(s);
    events := Refused(events, s, 0, Continue);
    AskStep(s, 0, Pause);
    events, s := Next(events, s, Ask(0, Pause, true));
    events, s := Wakes(events, s, 0);
    Asks(s);
    events := Refused(events, s, 0, Pause);
    AskStep(s, 0, Continue);
    events, s := Next(events, s, Ask(0, Continue, true));
    events, s := Wakes(events, s, 0);
    PauseAndContinueIs();
  }

  lemma PauseAndContinueIs()
    ensures PAUSE_AND_CONTINUE ==
            [RunRead, RunReport] + [RunStart(Started)] + [Ask(0, Continue, true)] + [Ask(0, Pause, true)]
            + [AlertRun(0), RunWake, RunTest, RunRead, RunReport] + [Ask(0, Pause, true)] + [Ask(0, Continue, true)]
            + [AlertRun(0), RunWake, RunTest, RunRead, RunReport]
  {
  }

  // ---- The history is needed ---------------------------------------------------------

  /** All fields of the service and all threads, before `Run` tests its target. */
  predicate BeforeTest(s: State) {
    && s.current == Running && s.accepted == 3 && s.checkPoint == 0 && s.target == Stopped
    && !s.alerted && s.handlers == {} && s.run == TestTarget && s.wanted != []
  }

  lemma StopErased(s: State)
    requires s == Asking(Starting.(run := Report(Running)), Stopped, StopPending, 0)
    ensures s.run == Report(Running) && s.current != Running
    ensures var s1 := Telling(s, Running, 3, Startup);
            && Enabled(s1, AlertRun(0))
            && var s2 := Step(s1, AlertRun(0));
               && Enabled(s2, RunStart(Started)) && Enabled(Step(s2, RunStart(Started)), RunWake)
               && var s3 := Step(Step(s2, RunStart(Started)), RunWake);
                  BeforeTest(s3) && s3.due
  {
  }

  lemma AskDecided(s: State)
    requires BeforeTest(s)
    ensures Enabled(s, Ask(1, Pause, true)) && (Losing(s, Ask(1, Pause, true)) <==> s.due)
  {
  }

  lemma StopDue() returns (run: seq<Event>, s: State)
    ensures Run(run) == Some(s) && BeforeTest(s) && s.due
  {
    RunSteps(Starting);
    AskStep(Starting.(run := Report(Running)), 0, Stop);
    hide Run, Step, Enabled, Accepts, Asking, Telling, BeforeTest;
    run := ToStarting();
    run, s := Next(run, Starting, RunStart(RuntimeFailed));
    RunSteps(s);
    run, s := Next(run, s, RunTest);
    RunSteps(s);
    run, s := Next(run, s, RunRead);
    run, s := Next(run, s, Ask(0, Stop, true));
    StopErased(s);
    ReportStep(s);
    run, s := Next(run, s, RunReport);
    run, s := Next(run, s, AlertRun(0));
    run, s := Next(run, s, RunStart(Started));
    run, s := Next(run, s, RunWake);
  }

  lemma StopNotDue() returns (run: seq<Event>, s: State)
    ensures Run(run) == Some(s) && BeforeTest(s) && !s.due
  {
    RunSteps(Starting);
    hide Run, Step, Enabled;
    run := ToStarting();
    run, s := Next(run, Starting, RunStart(ServerFailed));
  }

  /** Whether a control is a losing one cannot be read off the fields: two runs lead to the same ones,
      and a pause then loses the stop accepted in the one, and nothing in the other, in which a failed
      start has put the same target there. */
  lemma FieldsDoNotDecide()
    ensures exists run1, run2 ::
              && Run(run1).Some? && Run(run2).Some? && BeforeTest(Run(run1).value) && BeforeTest(Run(run2).value)
              && Losing(Run(run1).value, Ask(1, Pause, true)) && !Losing(Run(run2).value, Ask(1, Pause, true))
  {
    hide Run, Step, Enabled, Accepts, Losing;
    var run1, s1 := StopDue();
    var run2, s2 := StopNotDue();
    AskDecided(s1);
    AskDecided(s2);
  }
}
