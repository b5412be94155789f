/** `IO_OBJECT`: the members that store, lock, release and close the handle, while other threads run. */
module IoObject {
  import opened Words
  import opened Rundown
  import L = Lifetime
  import opened HandleLife

  function Thread(a: Action): nat {
    a.t
  }

  /** The steps of one thread, in order. */
  function Mine(trace: seq<Action>, t: nat): seq<Action> {
    if trace == [] then []
    else Mine(trace[..|trace| - 1], t) + if Thread(trace[|trace| - 1]) == t then [trace[|trace| - 1]] else []
  }

  lemma MineNext(trace: seq<Action>, a: Action, t: nat)
    ensures Mine(trace + [a], t) == if Thread(a) == t then Mine(trace, t) + [a] else Mine(trace, t)
  {
    assert (trace + [a])[..|trace|] == trace;
  }

  lemma {:induction false} TraceAppend(s: Object, acts: seq<Action>, x: Object, a: Action)
    requires Sound(s) && Trace(s, acts) == Some(x) && Can(x, a)
    ensures Trace(s, acts + [a]) == Some(Do(x, a))
    decreases |acts|
  {
    hide Do, Can, Sound;
    if acts == [] {
      TraceNext(s, a, []);
      assert [a] + [] == [a] && acts + [a] == [a];
      TraceEnd(Do(s, a));
    } else {
      DoSound(s, acts[0]);
      TraceAppend(Do(s, acts[0]), acts[1..], x, a);
      TraceNext(s, acts[0], acts[1..] + [a]);
      assert acts + [a] == [acts[0]] + (acts[1..] + [a]);
    }
  }

  ghost predicate Reached(trace: seq<Action>, s: Object) {
    Sound(New) && Trace(New, trace) == Some(s)
  }

  /** What one thread can count on while others run: its tokens, its unfinished calls and what it has
      loaded stay; nobody else is given its handle h. */
  ghost predicate Rely(t: nat, h: nat, s: Object, s': Object) {
    && (t in s'.life.tokens <==> t in s.life.tokens) && (t in s'.life.draining <==> t in s.life.draining)
    && (t in s.life.draining ==> s'.life.draining[t] == s.life.draining[t])
    && (t in s'.half <==> t in s.half) && (t in s.half ==> s'.half[t] == s.half[t])
    && (t in s'.loads <==> t in s.loads) && (t in s.loads ==> s'.loads[t] == s.loads[t])
    && (h in s'.used <==> h in s.used)
    && (forall e :: e in s.own ==> e in s'.own && s'.own[e] == s.own[e])
    && s.closed <= s'.closed
  }

  /** Every step of another thread grants it. */
  lemma RelyStep(t: nat, h: nat, s: Object, a: Action)
    requires Sound(s) && Can(s, a) && Thread(a) != t && !(a.Begin? && a.h == h)
    ensures Rely(t, h, s, Do(s, a))
  {
    hide L.FinalOk, L.LogOk, HalvesOk, FieldOk;
  }

  /** The path of a thread that releases the handle lock. */
  function Leaving(t: nat, last: bool): seq<Action> {
    [Unlock(t)] + if last then [Load(t), Zero(t), Action.Close(t)] else []
  }

  class IoObject {
    /** `m_HandleLock._Value` and `m_hFile`. */
    var handleLock: nat
    var hFile: nat
    ghost const threads: set<nat>
    ghost var s: Object
    ghost var trace: seq<Action>

    ghost predicate Valid()
      reads this
    {
      && Reached(trace, s) && handleLock == s.life.word && hFile == s.field
      && s.life.tokens <= threads && |threads| < V_INIT
    }

    constructor (ghost threads: set<nat>)
      requires |threads| < V_INIT
      ensures Valid() && s == New && trace == [] && this.threads == threads
    {
      handleLock, hFile := 0, 0;
      this.threads := threads;
      s, trace := New, [];
      new;
      NewSound();
      TraceEnd(New);
    }

    /** Any number of steps of other threads, none of which is given the handle h. */
    method Others(ghost t: nat, ghost h: nat)
      requires Valid()
      modifies this
      ensures Valid() && Sound(s) && Rely(t, h, old(s), s) && Mine(trace, t) == old(Mine(trace, t))
              && old(trace) <= trace
    {
    }

    ghost method Did(a: Action)
      requires Reached(trace, s) && Can(s, a)
      modifies this`s, this`trace
      ensures s == Do(old(s), a) && trace == old(trace) + [a] && Reached(trace, s) && Sound(s)
      ensures Mine(trace, Thread(a)) == old(Mine(trace, Thread(a))) + [a]
    {
      DoSound(s, a);
      TraceAppend(New, trace, s, a);
      MineNext(trace, a, Thread(a));
      s, trace := Do(s, a), trace + [a];
    }

    /** `Assign`: the lock's `Init`, whose result nobody looks at, and then the store. */
    method Assign(ghost t: nat, h: nat)
      requires Valid() && t !in s.half && h != 0 && h !in s.used
      modifies this
      ensures Valid() && t !in s.half && old(trace) <= trace
      ensures Mine(trace, t) == old(Mine(trace, t)) + [Begin(t, h), Store(t)]
    {
      hide Reached, Mine, Sound;
      Others(t, h);
      if handleLock == 0 {
        handleLock := V_INIT;
      }
      Did(Begin(t, h));
      Others(t, h);
      HalfIs(s, t, h);
      hFile := h;
      Did(Store(t));
    }

    /** `LockHandle`: one step of the lock, as `RundownProtection.Acquire` is; then the handle is read,
        whether or not the lock was taken, as it is at that moment. */
    method LockHandle(ghost t: nat) returns (ok: bool, h: nat)
      requires Valid() && t in threads && t !in s.life.tokens && t !in s.life.draining
      modifies this
      ensures Valid() && old(trace) <= trace && Mine(trace, t) == old(Mine(trace, t)) + [Lock(t)]
      ensures (ok <==> t in s.life.tokens) && t !in s.life.draining && (t in s.loads <==> t in old(s.loads))
      ensures h == hFile == s.field
    {
      hide Reached, Mine, Sound;
      Others(t, 0);
      ok := V_INIT <= handleLock;
      if ok {
        handleLock := Incremented(handleLock);
      }
      MayLock(s, t, threads);
      Did(Lock(t));
      Others(t, 0);
      h := hFile;
    }

    method CloseObjectHandle(ghost t: nat, h: nat)
      requires Valid() && t in s.loads && t in s.life.draining && s.loads[t] == h
      modifies this
      ensures Valid() && old(trace) <= trace && Mine(trace, t) == old(Mine(trace, t)) + [Action.Close(t)]
      ensures t !in s.loads && t !in s.life.draining && t !in s.life.tokens
      ensures (old(s.life.draining[t]), h) in s.closed
    {
      hide Reached, Mine, Sound;
      Others(t, 0);
      DrainingOwns(s, t);
      Did(Action.Close(t));
      assert s.closed[|s.closed| - 1] == (old(s.life.draining[t]), h);
    }

    /** The thread that drained the lock loads the handle, clears it and closes what it loaded. */
    method CloseDrained(ghost t: nat)
      requires Valid() && t in s.life.draining && t !in s.loads
      modifies this
      ensures Valid() && old(trace) <= trace
      ensures Mine(trace, t) == old(Mine(trace, t)) + [Load(t), Zero(t), Action.Close(t)]
      ensures t !in s.life.tokens && t !in s.life.draining && t !in s.loads
    {
      hide Reached, Mine, Sound;
      Others(t, 0);
      var h := hFile;
      Did(Load(t));
      Others(t, 0);
      hFile := 0;
      Did(Zero(t));
      CloseObjectHandle(t, h);
    }

    /** `UnlockHandle`: exactly the last holder of a lock that was run down closes the handle. The token
        is given back on every path, and with it all that is owed. */
    method UnlockHandle(ghost t: nat) returns (last: bool)
      requires Valid() && t in s.life.tokens && t !in s.loads
      modifies this
      ensures Valid() && old(trace) <= trace && Mine(trace, t) == old(Mine(trace, t)) + Leaving(t, last)
      ensures t !in s.life.tokens && t !in s.life.draining && t !in s.loads
    {
      hide Reached, Mine, Sound;
      Others(t, 0);
      HolderFacts(s, t);
      handleLock := Decremented(handleLock);
      last := handleLock == 0;
      Did(Unlock(t));
      if last {
        CloseDrained(t);
      }
    }

    /** `Close`. */
    method Close(ghost t: nat) returns (entered: bool, last: bool)
      requires Valid() && t in threads && t !in s.life.tokens && t !in s.life.draining && t !in s.loads
      modifies this
      ensures Valid() && old(trace) <= trace
      ensures Mine(trace, t) == old(Mine(trace, t)) + [Lock(t)] + if entered then [Down(t)] + Leaving(t, last) else []
      ensures t !in s.life.tokens && t !in s.life.draining && t !in s.loads
    {
      hide Reached, Mine, Sound, Leaving;
      last := false;
      var h;
      entered, h := LockHandle(t);
      if entered {
        Others(t, 0);
        HolderFacts(s, t);
        handleLock := BitReset(handleLock);
        Did(Down(t));
        last := UnlockHandle(t);
      }
    }
  }

  lemma HalfIs(s: Object, t: nat, h: nat)
    requires t in s.half && s.half[t].h == h
    ensures Can(s, Store(t)) && Do(s, Store(t)).field == h && t !in Do(s, Store(t)).half
  {
  }

  lemma MayLock(s: Object, t: nat, threads: set<nat>)
    requires s.life.tokens <= threads && |threads| < V_INIT && t in threads && t !in s.life.tokens
             && t !in s.life.draining
    ensures Can(s, Lock(t))
  {
    assert |s.life.tokens + {t}| <= |threads| by {
      assert threads == (s.life.tokens + {t}) + (threads - (s.life.tokens + {t}));
    }
  }

  lemma HolderFacts(s: Object, t: nat)
    requires Sound(s) && t in s.life.tokens
    ensures t !in s.life.draining && Can(s, Unlock(t)) && Can(s, Down(t)) && 0 < s.life.word < ULONG_RANGE
  {
    assert |s.life.tokens - {t}| == |s.life.tokens| - 1;
    hide EpochsOk, HalvesOk, FieldOk, L.FinalOk, L.LogOk;
  }

  lemma DrainingOwns(s: Object, t: nat)
    requires Sound(s) && t in s.life.draining
    ensures t !in s.life.tokens
  {
    hide EpochsOk, HalvesOk, FieldOk, L.FinalOk, L.LogOk;
  }
}
