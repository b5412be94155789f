/** `TIDFA`: a waiter's thread id whose two low bits say "waiting" and "alerted", combined with
    the kernel's one sticky alert per thread. One waiter, any number of alerters, every
    interlocked operation and kernel call one event. Failed compare-exchange attempts reload
    the word and try again. */
module Alert {
  import opened Words

  // ---- The packed word ---------------------------------------------------------------

  predicate WaitBit(w: nat) {
    w % 2 == 1
  }

  predicate AlertBit(w: nat) {
    w / 2 % 2 == 1
  }

  function Tid(w: nat): nat {
    w - w % 4
  }

  function WithBits(w: nat, wait: bool, alert: bool): (r: nat)
    ensures WaitBit(r) == wait && AlertBit(r) == alert && Tid(r) == Tid(w)
  {
    Tid(w) + (if wait then 1 else 0) + if alert then 2 else 0
  }

  // ---- States and events -------------------------------------------------------------

  datatype Status = Alerted | TimedOut

  datatype Waiter =
    | Idle
    | Loaded(w0: nat)                    // before the first compare-exchange
    | Waiting                            // in ZwWaitForAlertByThreadId
    | Woken(status: Status, w0: nat)     // before the second compare-exchange
    | Spinning                           // until the kernel alert is consumed
    | Broken                             // __debugbreak

  datatype Alerter = AlertLoaded(w0: nat) | Sending(target: nat)

  /** One finished wait: what it returned, and how many alerts had been committed since the
      previous consumption when it made its consuming exchange. */
  datatype Result = Result(status: Status, alerts: nat)

  /** `since` counts alerts committed and not yet consumed, `sent` the kernel alerts sent for
      the current wait. */
  datatype State = State(tid: nat, word: nat, kernel: bool, waiter: Waiter, alerters: map<nat, Alerter>,
                         since: nat, consumed: nat, sent: nat, results: seq<Result>)

  datatype Event =
    | BeginWait
    | ExchangeWait
    | Wake
    | TimeOut
    | ExchangeDone
    | Consume
    | BeginAlert(a: nat)
    | ExchangeAlert(a: nat)
    | Send(a: nat)

  function Fresh(tid: nat): State {
    State(tid, tid, false, Idle, map[], 0, 0, 0, [])
  }

  predicate Enabled(s: State, e: Event) {
    match e
    case BeginWait => s.waiter == Idle
    case ExchangeWait => s.waiter.Loaded?
    case Wake => s.waiter == Waiting && s.kernel
    case TimeOut => s.waiter == Waiting
    case ExchangeDone => s.waiter.Woken?
    case Consume => s.waiter == Spinning && s.kernel
    case BeginAlert(a) => a !in s.alerters
    case ExchangeAlert(a) => a in s.alerters && s.alerters[a].AlertLoaded?
    case Send(a) => a in s.alerters && s.alerters[a].Sending?
  }

  function Return(s: State, status: Status, alerts: nat): State {
    s.(waiter := Idle, results := s.results + [Result(status, alerts)])
  }

  /** The first exchange: consume a recorded alert without waiting, or announce the wait. */
  function ExchangedWait(s: State): State
    requires s.waiter.Loaded?
  {
    var w0 := s.waiter.w0;
    if WaitBit(w0) then s.(waiter := Broken)
    else if s.word != w0 then s.(waiter := Loaded(s.word))
    else if AlertBit(w0) then
      Return(s.(word := WithBits(w0, false, false), since := 0), Alerted, s.since)
    else s.(word := WithBits(w0, true, false), waiter := Waiting, sent := 0)
  }

  /** The second exchange clears both bits. An alert seen there whose kernel half was not what
      ended the wait must still be consumed. */
  function ExchangedDone(s: State): State
    requires s.waiter.Woken?
  {
    var status, w0 := s.waiter.status, s.waiter.w0;
    if s.word != w0 then s.(waiter := Woken(status, s.word))
    else
      var s' := s.(word := WithBits(w0, false, false), since := 0);
      if AlertBit(w0) && status != Alerted then s'.(waiter := Spinning, consumed := s.since)
      else Return(s', status, s.since)
  }

  /** An alerter sets the alert bit and clears the wait bit; the one that finds a waiter not
      yet alerted sends the kernel alert to the thread id left in its copy. */
  function ExchangedAlert(s: State, a: nat): State
    requires a in s.alerters && s.alerters[a].AlertLoaded?
  {
    var w0 := s.alerters[a].w0;
    if s.word != w0 then s.(alerters := s.alerters[a := AlertLoaded(s.word)])
    else
      var s' := s.(word := WithBits(w0, false, true), since := s.since + 1);
      if WaitBit(w0) && !AlertBit(w0) then
        s'.(alerters := s.alerters[a := Sending(WithBits(w0, false, AlertBit(w0)))])
      else s'.(alerters := s.alerters - {a})
  }

  function Step(s: State, e: Event): State
    requires Enabled(s, e)
  {
    match e
    case BeginWait => s.(waiter := Loaded(s.word))
    case ExchangeWait => ExchangedWait(s)
    case Wake => s.(kernel := false, waiter := Woken(Alerted, s.word))
    case TimeOut => s.(waiter := Woken(TimedOut, s.word))
    case ExchangeDone => ExchangedDone(s)
    case Consume => Return(s.(kernel := false), Alerted, s.consumed)
    case BeginAlert(a) => s.(alerters := s.alerters[a := AlertLoaded(s.word)])
    case ExchangeAlert(a) => ExchangedAlert(s, a)
    case Send(a) =>
      s.(kernel := s.kernel || s.alerters[a].target == s.tid, alerters := s.alerters - {a}, sent := s.sent + 1)
  }

  // ---- Invariant ---------------------------------------------------------------------

  ghost predicate SomeSending(s: State) {
    exists a :: a in s.alerters && s.alerters[a].Sending?
  }

  /** At most one kernel alert exists, in flight or pending. */
  ghost predicate OneKernelAlert(s: State) {
    && (forall a, b ::
            a in s.alerters && b in s.alerters && s.alerters[a].Sending? && s.alerters[b].Sending? ==> a == b)
    && (s.kernel ==> !SomeSending(s))
    && (forall a :: a in s.alerters && s.alerters[a].Sending? ==> s.alerters[a].target == s.tid)
  }

  ghost predicate KernelAlert(s: State) {
    s.kernel || SomeSending(s)
  }

  predicate WordOk(s: State) {
    && Tid(s.word) == s.tid && s.tid % 4 == 0
    && (AlertBit(s.word) <==> s.since > 0)
    && (WaitBit(s.word) <==> s.since == 0 && (s.waiter == Waiting || (s.waiter.Woken? && s.waiter.status == TimedOut)))
    && (s.waiter.Loaded? ==> !WaitBit(s.waiter.w0))
    && s.waiter != Broken
  }

  /** Where the kernel alert of the current wait is. */
  ghost predicate KernelOk(s: State) {
    match s.waiter
    case Idle | Loaded(_) => !KernelAlert(s)
    case Waiting => (KernelAlert(s) <==> s.since > 0) && s.sent == if s.kernel then 1 else 0
    case Woken(TimedOut, _) => (KernelAlert(s) <==> s.since > 0) && s.sent == if s.kernel then 1 else 0
    case Woken(Alerted, _) => !KernelAlert(s) && s.since > 0 && s.sent == 1
    case Spinning => KernelAlert(s) && s.consumed > 0 && s.sent == if s.kernel then 1 else 0
    case Broken => false
  }

  predicate ResultsOk(s: State) {
    forall i :: 0 <= i < |s.results| ==> (s.results[i].status == Alerted <==> s.results[i].alerts > 0)
  }

  ghost predicate Inv(s: State) {
    WordOk(s) && OneKernelAlert(s) && KernelOk(s) && ResultsOk(s)
  }

  lemma FreshInv(tid: nat)
    requires tid % 4 == 0
    ensures Inv(Fresh(tid))
  {
    var k := tid / 4;
    assert tid == 4 * k && tid / 2 == 2 * k;
  }

  lemma WaiterKeeps(s: State, e: Event)
    requires Inv(s) && Enabled(s, e)
    requires !e.BeginAlert? && !e.ExchangeAlert? && !e.Send?
    ensures Inv(Step(s, e))
  {
    assert SomeSending(Step(s, e)) == SomeSending(s);
  }

  lemma AlerterKeeps(s: State, e: Event)
    requires Inv(s) && Enabled(s, e)
    requires e.BeginAlert? || e.ExchangeAlert? || e.Send?
    ensures Inv(Step(s, e))
  {
    var s' := Step(s, e);
    if e.ExchangeAlert? && s.word == s.alerters[e.a].w0 && WaitBit(s.word) {
      assert s'.alerters[e.a].Sending?;
    } else if e.Send? {
      assert s.alerters[e.a].Sending?;
    } else {
      if SomeSending(s) {
        var b :| b in s.alerters && s.alerters[b].Sending?;
        assert b in s'.alerters && s'.alerters[b] == s.alerters[b];
      }
    }
  }

  lemma StepKeeps(s: State, e: Event)
    requires Inv(s) && Enabled(s, e)
    ensures Inv(Step(s, e))
  {
    hide Inv;
    if e.BeginAlert? || e.ExchangeAlert? || e.Send? {
      AlerterKeeps(s, e);
    } else {
      WaiterKeeps(s, e);
    }
  }

  // ---- Theorems ----------------------------------------------------------------------

  ghost function Run(tid: nat, events: seq<Event>): (r: Option<State>)
    requires tid % 4 == 0
    ensures r.Some? ==> Inv(r.value)
  {
    if events == [] then
      FreshInv(tid);
      Some(Fresh(tid))
    else
      var before := Run(tid, events[..|events| - 1]);
      var e := events[|events| - 1];
      if before.None? || !Enabled(before.value, e) then None
      else
        StepKeeps(before.value, e);
        Some(Step(before.value, e))
  }

  /** Every finished wait returned "alerted" exactly when some alert had been committed since
      the previous consumption, and a timeout exactly when none had. */
  predicate Exact(s: State) {
    forall i :: 0 <= i < |s.results| ==>
      if s.results[i].alerts > 0 then s.results[i].status == Alerted else s.results[i].status == TimedOut
  }

  /** Outside a wait no kernel alert is pending or in flight; within one at most one is sent,
      always to the waiting thread. */
  ghost predicate Clean(s: State) {
    && (s.waiter == Idle || s.waiter.Loaded? ==> !s.kernel && !SomeSending(s))
    && (s.waiter != Idle && !s.waiter.Loaded? ==> s.sent <= 1 && (SomeSending(s) ==> s.sent == 0))
    && (forall a :: a in s.alerters && s.alerters[a].Sending? ==> s.alerters[a].target == s.tid)
  }

  /** A waiter that was alerted, or that spins for its kernel alert, can go on: the alert has
      arrived or its sender is about to deliver it. The assertion on the wait bit never fails. */
  ghost predicate NoLostWakeup(s: State) {
    && ((s.waiter == Waiting && s.since > 0) || s.waiter == Spinning ==>
          exists e :: Enabled(s, e) && (e == Wake || e == Consume || e.Send?))
    && s.waiter != Broken
  }

  lemma InvNoLostWakeup(s: State)
    requires Inv(s)
    ensures NoLostWakeup(s)
  {
    if (s.waiter == Waiting && s.since > 0) || s.waiter == Spinning {
      if s.kernel {
        assert Enabled(s, if s.waiter == Waiting then Wake else Consume);
      } else {
        var a :| a in s.alerters && s.alerters[a].Sending?;
        assert Enabled(s, Send(a));
      }
    }
  }

  lemma EveryRun(tid: nat, events: seq<Event>)
    requires tid % 4 == 0 && Run(tid, events).Some?
    ensures Exact(Run(tid, events).value) && Clean(Run(tid, events).value) && NoLostWakeup(Run(tid, events).value)
  {
    var s := Run(tid, events).value;
    hide Run, NoLostWakeup;
    InvNoLostWakeup(s);
    hide Tid, WaitBit, AlertBit, Enabled;
  }
}
