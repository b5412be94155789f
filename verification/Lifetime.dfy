/** The protocol built on a rundown lock, as a state machine over its interlocked operations.

    The same protocol guards the connection of a TCP endpoint and of a pipe end, the session
    of a UDP endpoint, and the handle of an I/O object. A token is one successful `Acquire`;
    it may be handed from a caller to an I/O request and from there to a completion, and is
    given back by exactly one `Release`. Callbacks run only under a token. The thread whose
    `Release` returned TRUE then runs the final callback (`OnDisconnect`, or
    `CloseObjectHandle` for the handle). */
module Lifetime {
  import opened Words
  import opened Rundown

  datatype Entry = Callback(epoch: nat) | Final(epoch: nat)

  /** `epoch` numbers the successful `Init` calls; `draining` holds the threads between a TRUE
      `Release` and the final callback, with the epoch they drained. */
  datatype State = State(word: nat, tokens: set<nat>, draining: map<nat, nat>, epoch: nat, log: seq<Entry>)

  datatype Event =
    | Init
    | Acquire(t: nat)     // a failed attempt leaves the state unchanged
    | Call(t: nat)
    | Rundown(t: nat)
    | Release(t: nat)
    | Finish(t: nat)

  const Fresh := State(0, {}, map[], 0, [])

  predicate Enabled(s: State, e: Event) {
    match e
    case Init => true
    case Acquire(t) => t !in s.tokens && t !in s.draining && |s.tokens| < V_INIT - 1
    case Call(t) => t in s.tokens
    case Rundown(t) => t in s.tokens
    case Release(t) => t in s.tokens
    case Finish(t) => t in s.draining
  }

  function Inited(s: State): State {
    if s.word == 0 then s.(word := V_INIT, epoch := s.epoch + 1) else s
  }

  function Acquired(s: State, t: nat): State {
    if Active(s.word) then s.(word := Incremented(s.word), tokens := s.tokens + {t}) else s
  }

  function Called(s: State): State {
    s.(log := s.log + [Callback(s.epoch)])
  }

  function RanDown(s: State): State {
    s.(word := BitReset(s.word))
  }

  function Released(s: State, t: nat): State {
    var word := Decremented(s.word);
    s.(word := word, tokens := s.tokens - {t}, draining := if word == 0 then s.draining[t := s.epoch] else s.draining)
  }

  function Finished(s: State, t: nat): State
    requires t in s.draining
  {
    s.(log := s.log + [Final(s.draining[t])], draining := s.draining - {t})
  }

  function Step(s: State, e: Event): State
    requires Enabled(s, e)
  {
    match e
    case Init => Inited(s)
    case Acquire(t) => Acquired(s, t)
    case Call(t) => Called(s)
    case Rundown(t) => RanDown(s)
    case Release(t) => Released(s, t)
    case Finish(t) => Finished(s, t)
  }

  // ---- Invariant ---------------------------------------------------------------------

  predicate InLog(s: State, x: Entry) {
    x in s.log
  }

  ghost predicate Pending(s: State, e: nat) {
    exists t :: t in s.draining && s.draining[t] == e
  }

  /** An epoch is over once its last token was released after rundown. */
  predicate Over(s: State, e: nat) {
    1 <= e < s.epoch || (1 <= e == s.epoch && s.word == 0)
  }

  predicate WordOk(s: State) {
    && s.word < ULONG_RANGE
    && Holders(s.word) == |s.tokens|
    && (s.epoch == 0 ==> s.word == 0)
    && s.tokens !! s.draining.Keys
  }

  ghost predicate FinalOk(s: State) {
    && (forall e :: InLog(s, Final(e)) ==> !Pending(s, e))
    && (forall t, u :: t in s.draining && u in s.draining && s.draining[t] == s.draining[u] ==> t == u)
    && (forall e :: Over(s, e) <==> InLog(s, Final(e)) || Pending(s, e))
  }

  predicate LogOk(s: State) {
    && (forall i, j :: 0 <= i < j < |s.log| && s.log[i].Final? ==> s.log[j].epoch != s.log[i].epoch)
    && (forall i :: 0 <= i < |s.log| ==> 1 <= s.log[i].epoch <= s.epoch)
  }

  ghost predicate Inv(s: State) {
    WordOk(s) && FinalOk(s) && LogOk(s)
  }

  lemma FreshInv()
    ensures Inv(Fresh)
  {
  }

  lemma TokensEmpty(s: State)
    requires WordOk(s) && !Active(s.word)
    ensures s.word == |s.tokens|
    ensures s.word == 0 <==> s.tokens == {}
  {
  }

  lemma InitKeeps(s: State)
    requires Inv(s)
    ensures Inv(Inited(s))
  {
    var s' := Inited(s);
    assert forall x :: InLog(s', x) == InLog(s, x);
    assert forall e :: Pending(s', e) == Pending(s, e);
  }

  lemma AcquireKeeps(s: State, t: nat)
    requires Inv(s) && Enabled(s, Acquire(t))
    ensures Inv(Acquired(s, t))
  {
    var s' := Acquired(s, t);
    assert forall x :: InLog(s', x) == InLog(s, x);
    assert forall e :: Pending(s', e) == Pending(s, e);
  }

  lemma CallKeeps(s: State, t: nat)
    requires Inv(s) && Enabled(s, Call(t))
    ensures Inv(Called(s))
  {
    var s' := Called(s);
    assert s.word != 0;
    assert forall e :: Pending(s', e) == Pending(s, e);
    assert forall e :: InLog(s', Final(e)) == InLog(s, Final(e));
    forall i | 0 <= i < |s.log| && s.log[i].Final? ensures s.log[i].epoch != s.epoch {
      assert InLog(s, Final(s.log[i].epoch));
    }
  }

  lemma RundownKeeps(s: State, t: nat)
    requires Inv(s) && Enabled(s, Rundown(t))
    ensures Inv(RanDown(s))
  {
    var s' := RanDown(s);
    assert |s.tokens - {t}| == |s.tokens| - 1;
    assert forall x :: InLog(s', x) == InLog(s, x);
    assert forall e :: Pending(s', e) == Pending(s, e);
  }

  lemma ReleaseKeeps(s: State, t: nat)
    requires Inv(s) && Enabled(s, Release(t))
    ensures Inv(Released(s, t))
  {
    var s' := Released(s, t);
    assert |s'.tokens| == |s.tokens| - 1;
    assert forall x :: InLog(s', x) == InLog(s, x);
    assert !Over(s, s.epoch) && !InLog(s, Final(s.epoch)) && !Pending(s, s.epoch);
    if s'.word == 0 {
      assert s'.draining[t] == s.epoch;
      assert forall u :: u in s.draining ==> u in s'.draining && s'.draining[u] == s.draining[u];
      assert forall e :: Pending(s', e) <==> Pending(s, e) || e == s.epoch;
    } else {
      assert forall e :: Pending(s', e) == Pending(s, e);
    }
  }

  lemma FinishKeeps(s: State, t: nat)
    requires Inv(s) && Enabled(s, Finish(t))
    ensures Inv(Finished(s, t))
  {
    var s' := Finished(s, t);
    var e0 := s.draining[t];
    assert Pending(s, e0);
    assert Over(s, e0);
    assert forall x :: InLog(s', x) <==> InLog(s, x) || x == Final(e0);
    assert forall u :: u in s.draining && u != t ==> u in s'.draining && s'.draining[u] == s.draining[u];
    assert forall e :: Pending(s', e) <==> Pending(s, e) && e != e0;
    forall i | 0 <= i < |s.log| && s.log[i].Final? ensures s.log[i].epoch != e0 {
      assert InLog(s, Final(s.log[i].epoch));
    }
  }

  lemma StepKeeps(s: State, e: Event)
    requires Inv(s) && Enabled(s, e)
    ensures Inv(Step(s, e))
  {
    hide Inv;
    match e
    case Init => InitKeeps(s);
    case Acquire(t) => AcquireKeeps(s, t);
    case Call(t) => CallKeeps(s, t);
    case Rundown(t) => RundownKeeps(s, t);
    case Release(t) => ReleaseKeeps(s, t);
    case Finish(t) => FinishKeeps(s, t);
  }

  ghost function Run(events: seq<Event>): (r: Option<State>)
    ensures r.Some? ==> Inv(r.value)
  {
    if events == [] then
      FreshInv();
      Some(Fresh)
    else
      var before := Run(events[..|events| - 1]);
      var e := events[|events| - 1];
      if before.None? || !Enabled(before.value, e) then None
      else
        StepKeeps(before.value, e);
        Some(Step(before.value, e))
  }

  // ---- Theorems ----------------------------------------------------------------------

  /** Nothing of an epoch is logged after its final callback: neither a callback nor a second
      final callback. */
  predicate NothingAfterFinal(log: seq<Entry>) {
    forall i, j :: 0 <= i < j < |log| && log[i].Final? ==> log[j].epoch != log[i].epoch
  }

  /** In every run: the low bits count the tokens; nothing follows a final callback; and once
      no thread is draining, the epochs whose final callback ran are exactly those whose last
      token was released after rundown. */
  lemma EveryRun(events: seq<Event>)
    requires Run(events).Some?
    ensures var s := Run(events).value;
            && Holders(s.word) == |s.tokens|
            && NothingAfterFinal(s.log)
            && (s.draining == map[] ==> forall e :: Final(e) in s.log <==> Over(s, e))
            && (forall t :: t in s.draining ==> Over(s, s.draining[t]) && Final(s.draining[t]) !in s.log)
  {
    var s := Run(events).value;
    hide Run;
    forall e ensures InLog(s, Final(e)) <==> Final(e) in s.log {}
    forall t | t in s.draining ensures Over(s, s.draining[t]) && Final(s.draining[t]) !in s.log {
      assert Pending(s, s.draining[t]);
      assert !InLog(s, Final(s.draining[t]));
    }
    if s.draining == map[] {
      forall e ensures Final(e) in s.log <==> Over(s, e) {
        assert !Pending(s, e);
        assert InLog(s, Final(e)) <==> Final(e) in s.log;
      }
    }
  }

  /** From rundown until the next successful `Init` no attempt to acquire succeeds, and the
      lock is never active again without one. */
  lemma NoAcquireAfterRundown(s: State, e: Event)
    requires Inv(s) && Enabled(s, e) && !Active(s.word)
    ensures e.Acquire? ==> Step(s, e) == s
    ensures Active(Step(s, e).word) ==> e.Init? && s.tokens == {}
  {
    TokensEmpty(s);
  }

  /** Every final callback is owed to the release that emptied a lock that was run down, and
      that release happens at most once per epoch. */
  lemma DrainsOnce(s: State, t: nat)
    requires Inv(s) && Enabled(s, Release(t))
    ensures t in Released(s, t).draining <==> !Active(s.word) && s.tokens == {t}
    ensures t in Released(s, t).draining ==> !Over(s, s.epoch) && Over(Released(s, t), s.epoch)
  {
    assert |s.tokens - {t}| == |s.tokens| - 1;
    assert s.tokens == {t} <==> s.tokens - {t} == {};
  }

  lemma LastEvent(events: seq<Event>, e: Event)
    requires Run(events + [e]).Some?
    ensures Run(events).Some? && Enabled(Run(events).value, e)
    ensures Run(events + [e]).value == Step(Run(events).value, e)
  {
    assert (events + [e])[..|events|] == events;
  }

  /** What stays true from state s on, as long as its epoch lasts. */
  predicate StillDown(s: State, s': State) {
    s.epoch <= s'.epoch && (s'.epoch == s.epoch ==> !Active(s'.word) && s'.tokens <= s.tokens)
  }

  lemma StillDownKept(s: State, p: State, e: Event)
    requires StillDown(s, p) && Enabled(p, e) && WordOk(p)
    ensures StillDown(s, Step(p, e))
  {
    if !Active(p.word) {
      TokensEmpty(p);
    }
  }

  /** Shutdown is final for its epoch: after a rundown, for as long as no `Init` succeeds, the
      lock stays inactive and only tokens taken before remain; so whatever removals, timers and
      packets still interleave, nobody enters the session again. */
  lemma {:induction false} ShutdownIsFinal(events: seq<Event>, more: seq<Event>)
    requires Run(events).Some? && Run(events + more).Some? && !Active(Run(events).value.word)
    ensures StillDown(Run(events).value, Run(events + more).value)
  {
    hide Run, Step, Enabled, FinalOk, LogOk, WordOk;
    if more == [] {
      assert events + more == events;
    } else {
      hide StillDown;
      var prefix, e := more[..|more| - 1], more[|more| - 1];
      assert events + more == (events + prefix) + [e];
      LastEvent(events + prefix, e);
      ShutdownIsFinal(events, prefix);
      StillDownKept(Run(events).value, Run(events + prefix).value, e);
    }
  }
}
