/** The rundown lock and the session it guards, while other threads run. An object keeps the events of
    all threads so far in `trace`; a method's contract says which events are its own caller's, in
    order, with anything of other threads in between. */
module RundownLock {
  import opened Words
  import opened Rundown
  import opened Lifetime

  predicate By(e: Event, t: nat) {
    match e
    case Init => false
    case _ => e.t == t
  }

  /** The events of one thread, in order. */
  function Mine(trace: seq<Event>, t: nat): seq<Event> {
    if trace == [] then []
    else Mine(trace[..|trace| - 1], t) + if By(trace[|trace| - 1], t) then [trace[|trace| - 1]] else []
  }

  lemma MineNext(trace: seq<Event>, e: Event, t: nat)
    ensures Mine(trace + [e], t) == if By(e, t) then Mine(trace, t) + [e] else Mine(trace, t)
  {
    assert (trace + [e])[..|trace|] == trace;
  }

  lemma RunNext(trace: seq<Event>, s: State, e: Event)
    requires Run(trace) == Some(s) && Enabled(s, e)
    ensures Run(trace + [e]) == Some(Step(s, e)) && Inv(Step(s, e))
  {
    assert (trace + [e])[..|trace|] == trace;
    hide Inv, Step, Enabled;
  }

  /** What one thread can count on while others run: its token and its obligation to run the final
      callback stay; while it holds a token the epoch lasts, and what was run down stays down. */
  ghost predicate Rely(t: nat, s: State, s': State) {
    && (t in s'.tokens <==> t in s.tokens) && (t in s'.draining <==> t in s.draining)
    && (t in s.draining ==> s'.draining[t] == s.draining[t])
    && s.epoch <= s'.epoch && (t in s.tokens ==> s'.epoch == s.epoch)
    && (s'.epoch == s.epoch && Active(s'.word) ==> Active(s.word))
    && s.log <= s'.log
  }

  /** Every step of another thread grants it. */
  lemma RelyStep(t: nat, s: State, e: Event)
    requires Inv(s) && Enabled(s, e) && !By(e, t)
    ensures Rely(t, s, Step(s, e))
  {
    if t in s.tokens {
      assert |s.tokens - {t}| == |s.tokens| - 1;
    }
  }

  lemma Subset(a: set<nat>, b: set<nat>)
    requires a <= b
    ensures |a| <= |b|
  {
    assert b == a + (b - a);
  }

  lemma RoomToAcquire(s: State, t: nat, threads: set<nat>)
    requires s.tokens <= threads && |threads| < V_INIT && t in threads && t !in s.tokens && t !in s.draining
    ensures Enabled(s, Acquire(t))
  {
    Subset(s.tokens, threads - {t});
  }

  class RundownProtection {
    /** `_Value`. */
    var value: nat
    /** Fewer than 2^31 threads ever use the lock. */
    ghost const threads: set<nat>
    ghost var s: State
    ghost var trace: seq<Event>
    /** How often other threads will still change the word. */
    ghost var ahead: nat

    ghost predicate Valid()
      reads this
    {
      Run(trace) == Some(s) && value == s.word && s.tokens <= threads && |threads| < V_INIT
    }

    constructor (ghost threads: set<nat>)
      requires |threads| < V_INIT
      ensures Valid() && s == Fresh && trace == [] && this.threads == threads
    {
      value := 0;
      this.threads := threads;
      s, trace, ahead := Fresh, [], 0;
    }

    /** Any number of steps of other threads. Its caller knows only the contract, which every such step
        grants (`RelyStep`). */
    method Others(ghost t: nat)
      requires Valid()
      modifies this
      ensures Valid() && Rely(t, old(s), s) && Mine(trace, t) == old(Mine(trace, t)) && old(trace) <= trace
      ensures ahead <= old(ahead) && (value != old(value) ==> ahead < old(ahead))
    {
    }

    ghost method Did(e: Event)
      requires Run(trace) == Some(s) && Enabled(s, e)
      modifies this`s, this`trace
      ensures s == Step(old(s), e) && trace == old(trace) + [e] && Run(trace) == Some(s) && Inv(s)
      ensures forall t :: Mine(trace, t) == if By(e, t) then old(Mine(trace, t)) + [e] else old(Mine(trace, t))
    {
      RunNext(trace, s, e);
      forall t ensures Mine(trace + [e], t) == if By(e, t) then Mine(trace, t) + [e] else Mine(trace, t) {
        MineNext(trace, e, t);
      }
      s, trace := Step(s, e), trace + [e];
    }

    /** The retry loop guesses "active, no holder" first and then follows what it sees; it ends because
        it fails again only if another thread has changed the word. To the outside it is one step. */
    method Acquire(ghost t: nat) returns (ok: bool)
      requires Valid() && t in threads && t !in s.tokens && t !in s.draining
      modifies this
      ensures Valid() && Mine(trace, t) == old(Mine(trace, t)) + [Event.Acquire(t)] && old(trace) <= trace
      ensures (ok <==> t in s.tokens) && t !in s.draining && old(s.epoch) <= s.epoch && (!ok ==> !Active(s.word))
    {
      hide Run, Inv, Mine;
      var guess, first := V_INIT, true;
      while true
        invariant Valid() && t !in s.tokens && t !in s.draining && old(trace) <= trace && old(s.epoch) <= s.epoch
        invariant Mine(trace, t) == old(Mine(trace, t)) && Active(guess) && (first || guess == value)
        decreases ahead, first
      {
        Others(t);
        RoomToAcquire(s, t, threads);
        var seen := value;
        if seen == guess {
          value := Incremented(guess);
          Did(Event.Acquire(t));
          return true;
        }
        if !Active(seen) {
          Did(Event.Acquire(t));
          return false;
        }
        guess, first := seen, false;
      }
    }

    /** True exactly if this was the last holder of a lock that had been run down; the caller then owes
        the final callback. */
    method Release(ghost t: nat) returns (last: bool)
      requires Valid() && t in s.tokens
      modifies this
      ensures Valid() && Mine(trace, t) == old(Mine(trace, t)) + [Event.Release(t)] && old(trace) <= trace
      ensures t !in s.tokens && (last <==> t in s.draining) && (last ==> s.draining[t] == old(s.epoch))
      ensures s.epoch == old(s.epoch) && (Active(s.word) ==> old(Active(s.word)))
    {
      hide Run, Mine;
      Others(t);
      TokensFacts(s, t);
      hide Inv;
      value := Decremented(value);
      last := value == 0;
      Did(Event.Release(t));
    }

    /** Ends the epoch for newcomers: for as long as it lasts, nobody else acquires the lock. */
    method RundownLocked(ghost t: nat)
      requires Valid() && t in s.tokens
      modifies this
      ensures Valid() && Mine(trace, t) == old(Mine(trace, t)) + [Event.Rundown(t)] && old(trace) <= trace
      ensures t in s.tokens && t !in s.draining && !Active(s.word) && s.epoch == old(s.epoch)
    {
      hide Run, Mine;
      Others(t);
      TokensFacts(s, t);
      hide Inv;
      value := BitReset(value);
      Did(Event.Rundown(t));
    }

    /** Begins an epoch exactly if the lock was complete. */
    method Init(ghost t: nat) returns (ok: bool)
      requires Valid()
      modifies this
      ensures Valid() && Mine(trace, t) == old(Mine(trace, t)) && old(trace) <= trace
      ensures |trace| > |old(trace)| && trace[|trace| - 1] == Event.Init
      ensures ok ==> Active(s.word) && s.tokens == {} && s.epoch > old(s.epoch)
      ensures !ok ==> s.word != 0
    {
      hide Run, Mine;
      Others(t);
      ok := value == 0;
      if ok {
        value := V_INIT;
      }
      Did(Event.Init);
    }
  }

  /** What handling one packet, or shutting down, does to the lock and the callbacks. */
  function Visit(t: nat, entered: bool, inside: seq<Event>, last: bool): seq<Event> {
    [Event.Acquire(t)] + if entered then inside + [Event.Release(t)] + (if last then [Finish(t)] else []) else []
  }

  /** The session of a UDP `Endpoint`: its lock `m_rp`, `OnUserData` and `OnConnect` under it, and
      `OnDisconnect` as the final callback. */
  class Session {
    const rp: RundownProtection

    constructor (ghost threads: set<nat>)
      requires |threads| < V_INIT
      ensures rp.Valid() && fresh(rp) && rp.s == Fresh && rp.threads == threads
    {
      rp := new RundownProtection(threads);
    }

    method Callback(ghost t: nat)
      requires rp.Valid() && t in rp.s.tokens
      modifies rp
      ensures rp.Valid() && Mine(rp.trace, t) == old(Mine(rp.trace, t)) + [Call(t)] && old(rp.trace) <= rp.trace
      ensures t in rp.s.tokens && t !in rp.s.draining && rp.s.epoch == old(rp.s.epoch)
    {
      hide Run, Mine;
      rp.Others(t);
      TokensFacts(rp.s, t);
      hide Inv;
      rp.Did(Call(t));
    }

    method OnDisconnect(ghost t: nat)
      requires rp.Valid() && t in rp.s.draining
      modifies rp
      ensures rp.Valid() && Mine(rp.trace, t) == old(Mine(rp.trace, t)) + [Finish(t)] && old(rp.trace) <= rp.trace
      ensures t !in rp.s.tokens && t !in rp.s.draining && Final(old(rp.s.draining[t])) in rp.s.log
      ensures old(rp.s.epoch) <= rp.s.epoch
      ensures rp.s.epoch == old(rp.s.epoch) && Active(rp.s.word) ==> old(Active(rp.s.word))
    {
      hide Run, Mine;
      rp.Others(t);
      DrainingFacts(rp.s, t);
      hide Inv;
      rp.Did(Finish(t));
      assert rp.s.log[|rp.s.log| - 1] == Final(old(rp.s.draining[t]));
    }

    /** Packet handling: `OnData` or `OnConnect` only between an acquire and the release of the same
        thread, and `OnDisconnect` exactly if that release was the last of its epoch. */
    method Handle(ghost t: nat, decoded: bool) returns (entered: bool, last: bool)
      requires rp.Valid() && t in rp.threads && t !in rp.s.tokens && t !in rp.s.draining
      modifies rp
      ensures rp.Valid() && t !in rp.s.tokens && t !in rp.s.draining && old(rp.trace) <= rp.trace
      ensures Mine(rp.trace, t) == old(Mine(rp.trace, t)) + Visit(t, entered, if decoded then [Call(t)] else [], last)
      ensures old(rp.s.epoch) <= rp.s.epoch
    {
      hide Run, Mine;
      last := false;
      entered := rp.Acquire(t);
      if entered {
        if decoded {
          Callback(t);
        }
        last := rp.Release(t);
        if last {
          OnDisconnect(t);
        }
      }
    }

    /** `notify_disconnect`: afterwards the epoch is down, unless a new one has begun, and this thread has
        run `OnDisconnect` exactly if its release was the last. */
    method NotifyDisconnect(ghost t: nat) returns (entered: bool, last: bool)
      requires rp.Valid() && t in rp.threads && t !in rp.s.tokens && t !in rp.s.draining
      modifies rp
      ensures rp.Valid() && t !in rp.s.tokens && t !in rp.s.draining && old(rp.trace) <= rp.trace
      ensures Mine(rp.trace, t) == old(Mine(rp.trace, t)) + Visit(t, entered, [Event.Rundown(t)], last)
      ensures old(rp.s.epoch) <= rp.s.epoch && (rp.s.epoch == old(rp.s.epoch) ==> !Active(rp.s.word))
    {
      hide Run, Mine;
      last := false;
      entered := rp.Acquire(t);
      if entered {
        rp.RundownLocked(t);
        last := rp.Release(t);
        if last {
          OnDisconnect(t);
        }
      }
    }

    /** A packet of this connection. The connection is removed, which shuts the session down, exactly if
        it was down already, or the packet did not decode, or its handler failed. */
    method OnPacket(ghost t: nat, decoded: bool, handled: bool)
      returns (entered: bool, last: bool, removed: bool, ghost again: bool, ghost last': bool)
      requires rp.Valid() && t in rp.threads && t !in rp.s.tokens && t !in rp.s.draining
      modifies rp
      ensures rp.Valid() && t !in rp.s.tokens && t !in rp.s.draining && old(rp.trace) <= rp.trace
      ensures Mine(rp.trace, t) ==
              old(Mine(rp.trace, t)) + Visit(t, entered, if decoded then [Call(t)] else [], last)
              + if removed then Visit(t, again, [Event.Rundown(t)], last') else []
      ensures removed <==> !(entered && decoded && handled)
      ensures removed && rp.s.epoch == old(rp.s.epoch) ==> !Active(rp.s.word)
    {
      hide Run, Mine, Visit;
      again, last' := false, false;
      entered, last := Handle(t, decoded);
      removed := !(entered && decoded && handled);
      if removed {
        again, last' := NotifyDisconnect(t);
      }
    }
  }

  lemma DrainingFacts(s: State, t: nat)
    requires Inv(s) && t in s.draining
    ensures t !in s.tokens
  {
  }

  lemma TokensFacts(s: State, t: nat)
    requires Inv(s) && t in s.tokens
    ensures t !in s.draining && 0 < s.word < ULONG_RANGE
            && (Decremented(s.word) == 0 <==> !Active(s.word) && |s.tokens| == 1)
    ensures !Active(BitReset(s.word))
  {
    assert |s.tokens - {t}| == |s.tokens| - 1;
  }
}
