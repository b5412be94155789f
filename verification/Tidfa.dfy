/** `TIDFA`: `Alert` and `WaitForAlert` while other threads run. The object keeps the events of all
    threads so far in `trace`; a method's contract says which are its own caller's. */
module Tidfa {
  import opened Words
  import opened Alert

  datatype Who = TheWaiter | AnAlerter(a: nat)

  function By(e: Event): Who {
    match e
    case BeginAlert(a) => AnAlerter(a)
    case ExchangeAlert(a) => AnAlerter(a)
    case Send(a) => AnAlerter(a)
    case _ => TheWaiter
  }

  /** The events of one thread, in order. */
  function Mine(trace: seq<Event>, who: Who): seq<Event> {
    if trace == [] then []
    else Mine(trace[..|trace| - 1], who) + if By(trace[|trace| - 1]) == who then [trace[|trace| - 1]] else []
  }

  lemma MineNext(trace: seq<Event>, e: Event, who: Who)
    ensures Mine(trace + [e], who) == if By(e) == who then Mine(trace, who) + [e] else Mine(trace, who)
  {
    assert (trace + [e])[..|trace|] == trace;
  }

  lemma RunNext(tid: nat, trace: seq<Event>, s: State, e: Event)
    requires tid % 4 == 0 && Run(tid, trace) == Some(s) && Enabled(s, e)
    ensures Run(tid, trace + [e]) == Some(Step(s, e)) && Inv(Step(s, e))
  {
    assert (trace + [e])[..|trace|] == trace;
    hide Inv, Step, Enabled;
  }

  /** What one thread can count on while others run. */
  predicate Rely(who: Who, s: State, s': State) {
    s'.tid == s.tid &&
    match who
    case TheWaiter =>
      && s'.waiter == s.waiter && s'.consumed == s.consumed && s'.results == s.results && s.since <= s'.since
      && (s.kernel ==> s'.kernel)
    case AnAlerter(a) =>
      && (a in s'.alerters <==> a in s.alerters)
      && (a in s.alerters ==> s'.alerters[a] == s.alerters[a])
  }

  /** Every step of another thread grants it. */
  lemma RelyStep(who: Who, s: State, e: Event)
    requires Enabled(s, e) && By(e) != who
    ensures Rely(who, s, Step(s, e))
  {
  }

  /** n attempts. */
  function Tries(e: Event, n: nat): seq<Event> {
    seq(n, _ => e)
  }

  lemma OneMore(e: Event, n: nat)
    ensures Tries(e, n) + [e] == Tries(e, n + 1)
  {
  }

  class TIDFA {
    /** `m_dwThreadId`, and the kernel's sticky alert of that thread. */
    var threadId: nat
    var kernelAlert: bool
    ghost const tid: nat
    ghost var s: State
    ghost var trace: seq<Event>
    /** How often other threads will still change the word, and how long a thread that has to send a
        kernel alert may still be delayed. */
    ghost var ahead: nat
    ghost var patience: nat

    ghost predicate Valid()
      reads this
    {
      && tid % 4 == 0 && Run(tid, trace) == Some(s) && Inv(s)
      && threadId == s.word && kernelAlert == s.kernel && s.tid == tid
    }

    constructor (dwThreadId: nat, ghost ahead: nat, ghost patience: nat)
      requires dwThreadId % 4 == 0
      ensures Valid() && s == Fresh(dwThreadId) && trace == []
    {
      threadId, kernelAlert := dwThreadId, false;
      tid, s, trace := dwThreadId, Fresh(dwThreadId), [];
      this.ahead, this.patience := ahead, patience;
      new;
      FreshInv(dwThreadId);
    }

    /** Any number of steps of other threads. Its caller knows only the contract, which every such step
        grants (`RelyStep`). */
    method Others(ghost who: Who)
      requires Valid()
      modifies this
      ensures Valid() && Rely(who, old(s), s) && Mine(trace, who) == old(Mine(trace, who)) && old(trace) <= trace
      ensures ahead <= old(ahead) && (threadId != old(threadId) ==> ahead < old(ahead)) && patience <= old(patience)
    {
    }

    ghost method Did(e: Event)
      requires tid % 4 == 0 && Run(tid, trace) == Some(s) && Enabled(s, e)
      modifies this`s, this`trace
      ensures s == Step(old(s), e) && trace == old(trace) + [e] && Run(tid, trace) == Some(s) && Inv(s)
      ensures forall who :: Mine(trace, who) == old(Mine(trace, who)) + if By(e) == who then [e] else []
    {
      RunNext(tid, trace, s, e);
      forall who ensures Mine(trace + [e], who) == Mine(trace, who) + if By(e) == who then [e] else [] {
        MineNext(trace, e, who);
      }
      s, trace := Step(s, e), trace + [e];
    }

    /** While the waiter polls, a thread that has to send a kernel alert is not delayed for ever. */
    method OthersInTime()
      requires Valid() && s.waiter == Spinning
      modifies this
      ensures Valid() && Rely(TheWaiter, old(s), s) && old(trace) <= trace
      ensures Mine(trace, TheWaiter) == old(Mine(trace, TheWaiter))
      ensures kernelAlert || patience < old(patience)
    {
      hide Run, Mine, Inv;
      if !kernelAlert {
        SomeoneSends(s);
        ghost var a :| a in s.alerters && s.alerters[a].Sending? && s.alerters[a].target == s.tid;
        kernelAlert := true;
        Did(Send(a));
      }
    }

    method ZwAlertThreadByThreadId(ghost a: nat, target: nat)
      requires Valid() && a in s.alerters && s.alerters[a] == Sending(target)
      modifies this
      ensures Valid() && old(trace) <= trace && Mine(trace, AnAlerter(a)) == old(Mine(trace, AnAlerter(a))) + [Send(a)]
      ensures a !in s.alerters
    {
      hide Run, Mine, Inv;
      Others(AnAlerter(a));
      SendsToWaiter(s, a);
      kernelAlert := true;
      Did(Send(a));
    }

    /** `Alert`: tries until its exchange succeeds; it then sends the kernel alert exactly if it was the
        first to find the thread waiting. */
    method Alert(ghost a: nat) returns (ghost n: nat, sends: bool)
      requires Valid() && a !in s.alerters
      modifies this
      ensures Valid() && old(trace) <= trace && a !in s.alerters
      ensures Mine(trace, AnAlerter(a)) ==
              old(Mine(trace, AnAlerter(a))) + [BeginAlert(a)] + Tries(ExchangeAlert(a), n)
              + if sends then [Send(a)] else []
    {
      hide Run, Mine, Inv, WithBits, Tries;
      Others(AnAlerter(a));
      var copy := threadId;
      Did(BeginAlert(a));
      n := 0;
      ghost var begun := Mine(trace, AnAlerter(a));
      NoTries(ExchangeAlert(a));
      while true
        invariant Valid() && old(trace) <= trace && a in s.alerters && s.alerters[a] == AlertLoaded(copy)
        invariant Mine(trace, AnAlerter(a)) == begun + Tries(ExchangeAlert(a), n)
        decreases ahead, if copy == threadId then 0 else 1
      {
        Others(AnAlerter(a));
        var seen := threadId;
        if seen == copy {
          threadId := WithBits(copy, false, true);
        }
        OneMore(ExchangeAlert(a), n);
        Did(ExchangeAlert(a));
        n := n + 1;
        assert Mine(trace, AnAlerter(a)) == begun + Tries(ExchangeAlert(a), n);
        if seen == copy {
          sends := WaitBit(seen) && !AlertBit(seen);
          if sends {
            ZwAlertThreadByThreadId(a, WithBits(seen, false, AlertBit(seen)));
          }
          return;
        }
        copy := seen;
      }
    }

    /** The kernel wait returns because of an alert, which it takes, or of a timeout. */
    method ZwWaitForAlertByThreadId() returns (status: Status)
      requires Valid() && s.waiter == Waiting
      modifies this
      ensures Valid() && old(trace) <= trace && s.results == old(s.results)
      ensures s.waiter == Woken(status, threadId)
      ensures Mine(trace, TheWaiter) == old(Mine(trace, TheWaiter)) + [if status == Alerted then Wake else TimeOut]
    {
      hide Run, Mine, Inv;
      Others(TheWaiter);
      var late := *;
      if kernelAlert && !late {
        kernelAlert := false;
        status := Alerted;
        Did(Wake);
      } else {
        status := TimedOut;
        Did(TimeOut);
      }
    }

    /** The spin loop after a timeout that raced with an alert: it ends because the sender of the kernel
        alert is under way. */
    method Spin()
      requires Valid() && s.waiter == Spinning
      modifies this
      ensures Valid() && old(trace) <= trace && s.waiter == Idle
      ensures s.results == old(s.results) + [Result(Alerted, old(s.consumed))]
      ensures Mine(trace, TheWaiter) == old(Mine(trace, TheWaiter)) + [Consume]
    {
      hide Run, Mine, Inv;
      while true
        invariant Valid() && s.waiter == Spinning && s.consumed == old(s.consumed) && s.results == old(s.results)
        invariant Mine(trace, TheWaiter) == old(Mine(trace, TheWaiter)) && old(trace) <= trace
        decreases patience
      {
        OthersInTime();
        if kernelAlert {
          kernelAlert := false;
          Did(Consume);
          return;
        }
      }
    }

    /** After the kernel wait: clears both bits, and waits for the kernel half of an alert it sees only
        now. */
    method FinishWait(status0: Status) returns (status: Status, ghost n: nat, ghost alerts: nat)
      requires Valid() && s.waiter == Woken(status0, threadId)
      modifies this
      ensures Valid() && old(trace) <= trace && s.waiter == Idle
      ensures s.results == old(s.results) + [Result(status, alerts)]
      ensures Mine(trace, TheWaiter) ==
              old(Mine(trace, TheWaiter)) + Tries(ExchangeDone, n) + if status == status0 then [] else [Consume]
    {
      hide Run, Mine, Inv, WithBits, Tries;
      var copy := threadId;
      n := 0;
      NoTries(ExchangeDone);
      while true
        invariant Valid() && old(trace) <= trace && s.waiter == Woken(status0, copy) && s.results == old(s.results)
        invariant Mine(trace, TheWaiter) == old(Mine(trace, TheWaiter)) + Tries(ExchangeDone, n)
        decreases ahead, if copy == threadId then 0 else 1
      {
        Others(TheWaiter);
        var seen := threadId;
        if seen == copy {
          threadId := WithBits(copy, false, false);
        }
        OneMore(ExchangeDone, n);
        alerts := s.since;
        Did(ExchangeDone);
        n := n + 1;
        assert Mine(trace, TheWaiter) == old(Mine(trace, TheWaiter)) + Tries(ExchangeDone, n);
        if seen == copy {
          status := status0;
          if AlertBit(seen) && status != Alerted {
            Spin();
            status := Alerted;
          }
          return;
        }
        copy := seen;
      }
    }

    /** `WaitForAlert`: the status it returns is the one recorded for this wait, and that is "alerted"
        exactly if an alert was committed since the previous one was consumed. */
    method WaitForAlert() returns (status: Status, ghost alerts: nat)
      requires Valid() && s.waiter == Idle
      modifies this
      ensures Valid() && old(trace) <= trace && s.waiter == Idle
      ensures s.results == old(s.results) + [Result(status, alerts)] && (status == Alerted <==> alerts > 0)
    {
      hide Run, Mine, WithBits;
      Others(TheWaiter);
      var copy := threadId;
      Did(BeginWait);
      while true
        invariant Valid() && old(trace) <= trace && s.waiter == Loaded(copy) && s.results == old(s.results)
        decreases ahead, if copy == threadId then 0 else 1
      {
        Others(TheWaiter);
        NoWaitBit(s);
        hide Inv;
        var needWait := !AlertBit(copy);
        var seen := threadId;
        if seen == copy {
          threadId := WithBits(copy, needWait, false);
        }
        alerts := s.since;
        Did(ExchangeWait);
        if seen == copy {
          status := Alerted;
          if needWait {
            status := ZwWaitForAlertByThreadId();
            ghost var n;
            status, n, alerts := FinishWait(status);
          }
          LastResult(s);
          return;
        }
        copy := seen;
      }
    }
  }

  lemma NoWaitBit(s: State)
    requires Inv(s) && s.waiter.Loaded?
    ensures !WaitBit(s.waiter.w0)
  {
  }

  lemma LastResult(s: State)
    requires Inv(s) && |s.results| > 0
    ensures var r := s.results[|s.results| - 1]; r.status == Alerted <==> r.alerts > 0
  {
  }

  lemma NoTries(e: Event)
    ensures Tries(e, 0) == []
  {
  }

  lemma SomeoneSends(s: State)
    requires Inv(s) && s.waiter == Spinning && !s.kernel
    ensures exists a :: a in s.alerters && s.alerters[a].Sending? && s.alerters[a].target == s.tid
  {
  }

  lemma SendsToWaiter(s: State, a: nat)
    requires Inv(s) && a in s.alerters && s.alerters[a].Sending?
    ensures s.alerters[a].target == s.tid
  {
  }
}
