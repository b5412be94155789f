/** `ZRingBuffer`: `EndWrite`, `EndRead`, `Start` and `Stop` while other callbacks and the devices run.
    The object keeps the events of all of them so far in `trace`; a contract says which are its own
    callback's, in order. */
module RingBuffer {
  import opened Words
  import opened RingSpec
  import opened RingProof
  import opened RingTheorems

  datatype Who = Callback(t: nat) | Starter | Anybody

  function By(e: Event): Who {
    match e
    case Begin(_) => Starter
    case WriteDone(t, _) => Callback(t)
    case ReadDone(t, _) => Callback(t)
    case Exchange(t) => Callback(t)
    case Restart(t, _) => Callback(t)
    case Leave(t) => Callback(t)
    case _ => Anybody
  }

  /** The events of one callback, in order. */
  function Mine(trace: seq<Event>, who: Who): seq<Event> {
    if trace == [] then []
    else Mine(trace[..|trace| - 1], who) + if By(trace[|trace| - 1]) == who then [trace[|trace| - 1]] else []
  }

  lemma MineNext(trace: seq<Event>, e: Event, who: Who)
    ensures Mine(trace + [e], who) == if By(e) == who then Mine(trace, who) + [e] else Mine(trace, who)
  {
    assert (trace + [e])[..|trace|] == trace;
  }

  ghost predicate Reached(c: Config, mem0: seq<Byte>, trace: seq<Event>, s: State) {
    c.Valid() && |mem0| == c.size && Run(c, mem0, trace) == Some(s)
  }

  predicate Coupled(s: State, readOffset: nat, dataSize: nat, ioCount: int) {
    s.word == Word(readOffset, dataSize) && s.ioCount == ioCount
  }

  lemma ReachedNext(c: Config, mem0: seq<Byte>, trace: seq<Event>, s: State, e: Event)
    requires Reached(c, mem0, trace, s) && Enabled(s, e)
    ensures Can(c, s, e) && Reached(c, mem0, trace + [e], Step(c, s, e))
  {
    EnabledCan(c, s, e);
    assert (trace + [e])[..|trace|] == trace;
    hide Inv, Step, Enabled;
  }

  /** What a callback can count on while others run: where it stands. */
  predicate Rely(who: Who, s: State, s': State) {
    match who
    case Callback(t) => (t in s'.threads <==> t in s.threads) && (t in s.threads ==> s'.threads[t] == s.threads[t])
    case Starter => s'.starting == s.starting
    case Anybody => s.stopped ==> s'.stopped
  }

  lemma AsyncKeeps(c: Config, s: State, v: Word, ok: bool)
    requires c.size > 0 && v.dataSize <= c.size
    ensures var r, w := ReadAsync(c, s, v, ok), WriteAsync(c, s, v, ok);
            && r.threads == s.threads == w.threads && r.starting == s.starting == w.starting
            && r.stopped == s.stopped == w.stopped && r.word == s.word == w.word && r.mem == s.mem == w.mem
  {
    hide Cells, BuildBuffers;
  }

  lemma RelyRestart(c: Config, who: Who, s: State, t: nat, ok: bool)
    requires c.size > 0 && Can(c, s, Restart(t, ok)) && Callback(t) != who
    ensures Rely(who, s, Step(c, s, Restart(t, ok)))
  {
    AsyncKeeps(c, s, s.threads[t].v1, ok);
    hide Inv, ReadAsync, WriteAsync;
  }

  lemma RelyExchange(c: Config, who: Who, s: State, t: nat)
    requires c.size > 0 && Enabled(s, Exchange(t)) && Callback(t) != who
    ensures Rely(who, s, Step(c, s, Exchange(t)))
  {
    hide Cell, U32;
  }

  /** Every step of others grants it. */
  lemma RelyStep(c: Config, who: Who, s: State, e: Event)
    requires c.size > 0 && Can(c, s, e) && By(e) != who
    ensures Rely(who, s, Step(c, s, e))
  {
    hide Inv, Cells, BuildBuffers, Cell, Reported, WriteExchanged, ReadExchanged, Restarted;
    match e
    case Restart(t, ok) => RelyRestart(c, who, s, t, ok);
    case Exchange(t) => RelyExchange(c, who, s, t);
    case _ =>
  }

  function Tries(e: Event, n: nat): seq<Event> {
    seq(n, _ => e)
  }

  lemma OneMore(e: Event, n: nat)
    ensures Tries(e, n) + [e] == Tries(e, n + 1)
  {
  }

  lemma NoTries(e: Event)
    ensures Tries(e, 0) == []
  {
  }

  predicate Stands(s: State, t: nat, pc: Thread) {
    t in s.threads && s.threads[t] == pc
  }

  /** A call of the virtual `BeginRead` or `BeginWrite`: by whom, with which list, and its answer. */
  datatype Call = Call(who: Who, writes: bool, wb: seq<WsaBuf>, ok: bool)

  /** The calls of one callback, in order. */
  function CallsOf(calls: seq<Call>, who: Who): seq<Call> {
    if calls == [] then []
    else CallsOf(calls[..|calls| - 1], who) + if calls[|calls| - 1].who == who then [calls[|calls| - 1]] else []
  }

  lemma CallsNext(calls: seq<Call>, x: Call, who: Who)
    ensures CallsOf(calls + [x], who) == if x.who == who then CallsOf(calls, who) + [x] else CallsOf(calls, who)
  {
    assert (calls + [x])[..|calls|] == calls;
  }

  /** Every entry of the list lies in the memory of the ring, which is mapped once or twice. */
  predicate InMemory(c: Config, wb: seq<WsaBuf>) {
    forall w :: w in wb ==> 0 < w.length && w.offset + w.length <= if c.adjacent then 2 * c.size else c.size
  }

  /** Exactly one more call, with a list that names the bytes from `from` to `to` in order and lies in
      memory, and with this answer; or none, if there is not enough room or data. */
  predicate Called(c: Config, before: seq<Call>, after: seq<Call>, writes: bool, enough: bool,
                   from: nat, to: nat, ok: bool)
    requires c.size > 0 && from <= to
  {
    if enough then
      && |after| == |before| + 1 && after[..|before|] == before
      && var x := after[|before|];
         x.writes == writes && x.ok == ok && InMemory(c, x.wb) && Cells(c, x.wb) == Interval(c, from, to)
    else after == before && !ok
  }

  /** A read of all data of the word, if that is enough. */
  predicate CalledRead(c: Config, before: seq<Call>, after: seq<Call>, v: Word, ok: bool)
    requires c.size > 0
  {
    Called(c, before, after, false, v.dataSize >= c.minRead, v.readOffset, v.readOffset + v.dataSize, ok)
  }

  /** A write to all space the word leaves, if that is enough. */
  predicate CalledWrite(c: Config, before: seq<Call>, after: seq<Call>, v: Word, ok: bool)
    requires c.size > 0 && v.dataSize <= c.size
  {
    Called(c, before, after, true, c.size - v.dataSize >= c.minWrite, v.readOffset + v.dataSize, v.readOffset + c.size,
           ok)
  }

  class ZRingBuffer {
    const c: Config
    /** The ring, the two halves of `_v`, and `_ioCount`. */
    const memory: array<Byte>
    var readOffset: nat
    var dataSize: nat
    var ioCount: int
    ghost const mem0: seq<Byte>
    ghost var s: State
    ghost var trace: seq<Event>
    /** How often other callbacks will still change the word. */
    ghost var ahead: nat
    /** All calls of `BeginRead` and `BeginWrite` so far. */
    ghost var calls: seq<Call>

    ghost predicate Valid()
      reads this, memory
    {
      Reached(c, mem0, trace, s) && Coupled(s, readOffset, dataSize, ioCount) && memory[..] == s.mem
    }

    /** `Init` and the assignments of `Start`. */
    constructor (c: Config, ghost ahead: nat)
      requires c.Valid()
      ensures Valid() && this.c == c && fresh(memory) && s == RingSpec.Start(c, memory[..]) && trace == []
      ensures calls == []
    {
      this.c, this.ahead, calls := c, ahead, [];
      memory := new Byte[c.size](_ => 0);
      readOffset, dataSize, ioCount := 0, 0, 1;
      mem0 := seq(c.size, _ => 0);
      s, trace := RingSpec.Start(c, seq(c.size, _ => 0)), [];
      new;
      assert memory[..] == mem0;
    }

    /** Any number of steps of other callbacks and of the devices. Its caller knows only the contract,
        which every such step grants (`RelyStep`). */
    method Others(ghost who: Who)
      requires Valid()
      modifies this, memory
      ensures Valid() && Rely(who, old(s), s) && Mine(trace, who) == old(Mine(trace, who)) && old(trace) <= trace
      ensures ahead <= old(ahead) && (s.word != old(s.word) ==> ahead < old(ahead))
      ensures CallsOf(calls, who) == old(CallsOf(calls, who))
    {
    }

    ghost method Did(e: Event)
      requires Reached(c, mem0, trace, s) && Enabled(s, e)
      modifies this`s, this`trace
      ensures Can(c, old(s), e) && s == Step(c, old(s), e) && trace == old(trace) + [e] && Reached(c, mem0, trace, s)
      ensures Mine(trace, By(e)) == old(Mine(trace, By(e))) + [e]
    {
      ReachedNext(c, mem0, trace, s, e);
      MineNext(trace, e, By(e));
      hide Step, Enabled, Reached, Mine;
      s, trace := Step(c, s, e), trace + [e];
    }

    /** Fills the caller's two-entry array; returns how many entries are used. */
    method BuildBuffers(wb: array<WsaBuf>, from: nat, to: nat) returns (n: nat)
      requires wb.Length == 2 && 0 < c.size && from < to <= from + c.size
      modifies wb
      ensures n <= wb.Length && wb[..n] == RingSpec.BuildBuffers(c, from, to)
              && Cells(c, wb[..n]) == Interval(c, from, to) && InMemory(c, wb[..n])
    {
      BuildBuffersCovers(c, from, to);
      if c.adjacent {
        wb[0] := WsaBuf(from % c.size, to - from);
        n := 1;
      } else {
        var f, t := from % c.size, to % c.size;
        if f < t {
          wb[0] := WsaBuf(f, t - f);
          n := 1;
        } else {
          wb[0] := WsaBuf(f, c.size - f);
          if t != 0 {
            wb[1] := WsaBuf(0, t);
            n := 2;
          } else {
            n := 1;
          }
        }
      }
      assert wb[..n] == RingSpec.BuildBuffers(c, from, to);
    }

    /** The virtual `BeginRead` or `BeginWrite`: it takes the list of buffers or fails. */
    method BeginTransfer(ghost who: Who, writes: bool, wb: seq<WsaBuf>) returns (ok: bool)
      modifies this`calls
      ensures CallsOf(calls, who) == old(CallsOf(calls, who)) + [Call(who, writes, wb, ok)]
    {
      ok := *;
      CallsNext(calls, Call(who, writes, wb, ok), who);
      calls := calls + [Call(who, writes, wb, ok)];
    }

    /** `ReadAsync`: if the snapshot has enough data the read is begun on exactly its bytes, in order. The
        count, the virtual call and, if that fails, the zero-byte completion are one step. */
    method ReadAsync(ghost t: nat, v: Word, ghost pc: Thread) returns (ok: bool)
      requires Valid() && Stands(s, t, pc) && (pc == EndWriteRestartRead(v) || pc == EndReadRestartRead(v))
      modifies this, memory
      ensures Valid() && old(trace) <= trace
      ensures Mine(trace, Callback(t)) == old(Mine(trace, Callback(t))) + [Restart(t, ok)]
      ensures Stands(s, t, After(pc)) && ahead <= old(ahead)
      ensures c.CanRead(v.dataSize) && ok ==>
                s.read == Active(Interval(c, v.readOffset, v.readOffset + v.dataSize), map[])
      ensures c.size > 0 && v.dataSize <= c.size
      ensures CalledRead(c, old(CallsOf(calls, Callback(t))), CallsOf(calls, Callback(t)), v, ok)
    {
      hide Reached, Mine, Step, Enabled, RingSpec.BuildBuffers, Cells, Interval, CallsOf, InMemory;
      Others(Callback(t));
      RestartIs(c, mem0, trace, s, t, v, pc, true);
      RestartIs(c, mem0, trace, s, t, v, pc, false);
      ok := false;
      if c.CanRead(v.dataSize) {
        var wb := new WsaBuf[2](_ => WsaBuf(0, 0));
        var n := BuildBuffers(wb, v.readOffset, v.readOffset + v.dataSize);
        ok := BeginTransfer(Callback(t), false, wb[..n]);
        if ok {
          ioCount := ioCount + 1;
        }
      }
      Did(Restart(t, ok));
    }

    /** `WriteAsync`, on the free space behind the data. */
    method WriteAsync(ghost t: nat, v: Word, ghost pc: Thread) returns (ok: bool)
      requires Valid() && Stands(s, t, pc) && (pc == EndWriteRestartWrite(v) || pc == EndReadRestartWrite(v))
      modifies this, memory
      ensures Valid() && old(trace) <= trace
      ensures Mine(trace, Callback(t)) == old(Mine(trace, Callback(t))) + [Restart(t, ok)]
      ensures Stands(s, t, After(pc)) && ahead <= old(ahead)
      ensures v.dataSize <= c.size
      ensures c.CanWrite(v.dataSize) && ok ==>
                s.write == Active(Interval(c, v.readOffset + v.dataSize, v.readOffset + c.size), map[])
      ensures c.size > 0
      ensures CalledWrite(c, old(CallsOf(calls, Callback(t))), CallsOf(calls, Callback(t)), v, ok)
    {
      hide Reached, Mine, Step, Enabled, RingSpec.BuildBuffers, Cells, Interval, CallsOf, InMemory;
      Others(Callback(t));
      RestartIs(c, mem0, trace, s, t, v, pc, true);
      RestartIs(c, mem0, trace, s, t, v, pc, false);
      ok := false;
      if c.CanWrite(v.dataSize) {
        var wb := new WsaBuf[2](_ => WsaBuf(0, 0));
        var n := BuildBuffers(wb, v.readOffset + v.dataSize, v.readOffset + c.size);
        ok := BeginTransfer(Callback(t), true, wb[..n]);
        if ok {
          ioCount := ioCount + 1;
        }
      }
      Did(Restart(t, ok));
    }

    /** `EndIo`: the last one of all calls `OnIoStop`. */
    method EndIo(ghost t: nat) returns (last: bool)
      requires Valid() && Stands(s, t, Leaving)
      modifies this, memory
      ensures Valid() && old(trace) <= trace && Mine(trace, Callback(t)) == old(Mine(trace, Callback(t))) + [Leave(t)]
      ensures t !in s.threads && (last <==> Quiet(s)) && (last ==> s.ioStops == 1)
      ensures CallsOf(calls, Callback(t)) == old(CallsOf(calls, Callback(t)))
    {
      hide Reached, Mine, Step, Enabled;
      Others(Callback(t));
      LeaveIs(c, mem0, trace, s, t);
      ioCount := ioCount - 1;
      last := ioCount == 0;
      Did(Leave(t));
      StopCounted(c, mem0, trace, s);
    }

    /** The exchange loop of `EndWrite`: it ends because it fails again only if the word has changed. */
    method CommitWrite(ghost t: nat, n: nat, v: Word)
      returns (v1: Word, full: bool, ghost k: nat, v0: Word)
      requires Valid() && Stands(s, t, EndWriteExchange(n, v))
      modifies this, memory
      ensures Valid() && old(trace) <= trace
      ensures Mine(trace, Callback(t)) == old(Mine(trace, Callback(t))) + Tries(Exchange(t), k)
      ensures Stands(s, t, if full then EndWriteRestartRead(v1) else EndWriteRestartWrite(v1))
      ensures c.size > 0 && v1 == Word(v0.readOffset, U32(v0.dataSize + n)) && v0.dataSize <= c.size
              && (full <==> v0.dataSize < c.minRead)
      ensures CallsOf(calls, Callback(t)) == old(CallsOf(calls, Callback(t)))
    {
      hide Reached, Mine, Step, Enabled, Tries, U32, CallsOf;
      v0 := v;
      k := 0;
      NoTries(Exchange(t));
      while true
        invariant Valid() && old(trace) <= trace && Stands(s, t, EndWriteExchange(n, v0))
        invariant CallsOf(calls, Callback(t)) == old(CallsOf(calls, Callback(t)))
        invariant Mine(trace, Callback(t)) == old(Mine(trace, Callback(t))) + Tries(Exchange(t), k)
        decreases ahead, if v0 == s.word then 0 else 1
      {
        Others(Callback(t));
        ExchangeWriteIs(c, mem0, trace, s, t, n, v0);
        WordRange(c, mem0, trace, s);
        var seen := Word(readOffset, dataSize);
        if seen == v0 {
          dataSize := U32(v0.dataSize + n);
        }
        OneMore(Exchange(t), k);
        Did(Exchange(t));
        k := k + 1;
        assert Mine(trace, Callback(t)) == old(Mine(trace, Callback(t))) + Tries(Exchange(t), k);
        if seen == v0 {
          return Word(v0.readOffset, U32(v0.dataSize + n)), !c.CanRead(v0.dataSize), k, v0;
        }
        v0 := seen;
      }
    }

    /** The exchange loop of `EndRead`. */
    method CommitRead(ghost t: nat, n: nat, v: Word)
      returns (v1: Word, full: bool, ghost k: nat, v0: Word)
      requires Valid() && Stands(s, t, EndReadExchange(n, v))
      modifies this, memory
      ensures Valid() && old(trace) <= trace
      ensures Mine(trace, Callback(t)) == old(Mine(trace, Callback(t))) + Tries(Exchange(t), k)
      ensures Stands(s, t, if full then EndReadRestartWrite(v1) else EndReadRestartRead(v1))
      ensures c.size > 0 && v1 == Word(Cell(c, U32(v0.readOffset + n)), U32(v0.dataSize - n)) && v0.dataSize <= c.size
              && (full <==> c.size - v0.dataSize < c.minWrite)
      ensures CallsOf(calls, Callback(t)) == old(CallsOf(calls, Callback(t)))
    {
      hide Reached, Mine, Step, Enabled, Tries, U32, Cell, CallsOf;
      v0 := v;
      k := 0;
      NoTries(Exchange(t));
      while true
        invariant Valid() && old(trace) <= trace && Stands(s, t, EndReadExchange(n, v0))
        invariant CallsOf(calls, Callback(t)) == old(CallsOf(calls, Callback(t)))
        invariant Mine(trace, Callback(t)) == old(Mine(trace, Callback(t))) + Tries(Exchange(t), k)
        decreases ahead, if v0 == s.word then 0 else 1
      {
        Others(Callback(t));
        ExchangeReadIs(c, mem0, trace, s, t, n, v0);
        WordRange(c, mem0, trace, s);
        var seen := Word(readOffset, dataSize);
        if seen == v0 {
          readOffset, dataSize := Cell(c, U32(v0.readOffset + n)), U32(v0.dataSize - n);
        }
        OneMore(Exchange(t), k);
        Did(Exchange(t));
        k := k + 1;
        assert Mine(trace, Callback(t)) == old(Mine(trace, Callback(t))) + Tries(Exchange(t), k);
        if seen == v0 {
          return Word(Cell(c, U32(v0.readOffset + n)), U32(v0.dataSize - n)), !c.CanWrite(v0.dataSize), k, v0;
        }
        v0 := seen;
      }
    }

    /** What a callback restarts after its write: the other direction first, if it could not run before. */
    method ResumeFromWrite(ghost t: nat, v1: Word, first: bool) returns (ghost oks: seq<bool>, ghost mid: seq<Call>)
      requires Valid() && Stands(s, t, if first then EndWriteRestartRead(v1) else EndWriteRestartWrite(v1))
      modifies this, memory
      ensures Valid() && old(trace) <= trace && Stands(s, t, Leaving)
      ensures Mine(trace, Callback(t)) == old(Mine(trace, Callback(t))) + Restarts(t, oks)
      ensures c.size > 0 && v1.dataSize <= c.size && |oks| == if first then 2 else 1
      ensures if first then CalledRead(c, old(CallsOf(calls, Callback(t))), mid, v1, oks[0])
              else mid == old(CallsOf(calls, Callback(t)))
      ensures CalledWrite(c, mid, CallsOf(calls, Callback(t)), v1, oks[|oks| - 1])
    {
      hide Reached, Mine, Step, Enabled, Restarts, CallsOf, CalledRead, CalledWrite;
      oks, mid := [], CallsOf(calls, Callback(t));
      RestartsAre(t);
      if first {
        var ok := ReadAsync(t, v1, EndWriteRestartRead(v1));
        oks, mid := [ok], CallsOf(calls, Callback(t));
      }
      var ok := WriteAsync(t, v1, EndWriteRestartWrite(v1));
      oks := oks + [ok];
    }

    /** `EndWrite`: commits the bytes; restarts the read if the ring could not be read from before, and in
        any case the write, both from the snapshot it committed; and ends with one `EndIo`. A completion
        of no bytes ends the direction and only counts down. */
    method EndWrite(ghost t: nat, n: nat)
      returns (last: bool, ghost k: nat, ghost oks: seq<bool>, ghost v0: Word, ghost v1: Word, ghost mid: seq<Call>)
      requires Valid() && t !in s.threads && Completes(s.write, n)
      modifies this, memory
      ensures Valid() && old(trace) <= trace && t !in s.threads && (last <==> Quiet(s))
      ensures Mine(trace, Callback(t)) ==
              old(Mine(trace, Callback(t))) + [WriteDone(t, n)] + Tries(Exchange(t), k) + Restarts(t, oks) + [Leave(t)]
      ensures n == 0 ==> k == 0 && oks == [] && CallsOf(calls, Callback(t)) == old(CallsOf(calls, Callback(t)))
      ensures n != 0 ==>
                && c.size > 0 && v0.dataSize <= c.size && v1 == Word(v0.readOffset, U32(v0.dataSize + n))
                && v1.dataSize <= c.size
                && |oks| == (if v0.dataSize < c.minRead then 2 else 1)
                && (if v0.dataSize < c.minRead
                    then CalledRead(c, old(CallsOf(calls, Callback(t))), mid, v1, oks[0])
                    else mid == old(CallsOf(calls, Callback(t))))
                && CalledWrite(c, mid, CallsOf(calls, Callback(t)), v1, oks[|oks| - 1])
    {
      hide Reached, Mine, Step, Enabled, Tries, Restarts, Quiet, CallsOf, CalledRead, CalledWrite;
      WriteDoneIs(c, mem0, trace, s, t, n);
      k, oks := 0, [];
      NoTries(Exchange(t));
      RestartsAre(t);
      var w := Word(readOffset, dataSize);
      v0, v1, mid := w, w, CallsOf(calls, Callback(t));
      Did(WriteDone(t, n));
      if n != 0 {
        var u, empty, u0;
        u, empty, k, u0 := CommitWrite(t, n, w);
        v0, v1 := u0, u;
        oks, mid := ResumeFromWrite(t, u, empty);
      }
      last := EndIo(t);
    }

    /** What a callback restarts after its read: the other direction first, if it could not run before. */
    method ResumeFromRead(ghost t: nat, v1: Word, first: bool) returns (ghost oks: seq<bool>, ghost mid: seq<Call>)
      requires Valid() && Stands(s, t, if first then EndReadRestartWrite(v1) else EndReadRestartRead(v1))
      modifies this, memory
      ensures Valid() && old(trace) <= trace && Stands(s, t, Leaving)
      ensures Mine(trace, Callback(t)) == old(Mine(trace, Callback(t))) + Restarts(t, oks)
      ensures c.size > 0 && v1.dataSize <= c.size && |oks| == if first then 2 else 1
      ensures if first then CalledWrite(c, old(CallsOf(calls, Callback(t))), mid, v1, oks[0])
              else mid == old(CallsOf(calls, Callback(t)))
      ensures CalledRead(c, mid, CallsOf(calls, Callback(t)), v1, oks[|oks| - 1])
    {
      hide Reached, Mine, Step, Enabled, Restarts, CallsOf, CalledRead, CalledWrite;
      oks, mid := [], CallsOf(calls, Callback(t));
      RestartsAre(t);
      if first {
        var ok := WriteAsync(t, v1, EndReadRestartWrite(v1));
        oks, mid := [ok], CallsOf(calls, Callback(t));
      }
      var ok := ReadAsync(t, v1, EndReadRestartRead(v1));
      oks := oks + [ok];
    }

    /** `EndRead`, with the directions exchanged. */
    method EndRead(ghost t: nat, n: nat)
      returns (last: bool, ghost k: nat, ghost oks: seq<bool>, ghost v0: Word, ghost v1: Word, ghost mid: seq<Call>)
      requires Valid() && t !in s.threads && Completes(s.read, n)
      modifies this, memory
      ensures Valid() && old(trace) <= trace && t !in s.threads && (last <==> Quiet(s))
      ensures Mine(trace, Callback(t)) ==
              old(Mine(trace, Callback(t))) + [ReadDone(t, n)] + Tries(Exchange(t), k) + Restarts(t, oks) + [Leave(t)]
      ensures n == 0 ==> k == 0 && oks == [] && CallsOf(calls, Callback(t)) == old(CallsOf(calls, Callback(t)))
      ensures n != 0 ==>
                && c.size > 0 && v0.dataSize <= c.size
                && v1 == Word(Cell(c, U32(v0.readOffset + n)), U32(v0.dataSize - n)) && v1.dataSize <= c.size
                && |oks| == (if c.size - v0.dataSize < c.minWrite then 2 else 1)
                && (if c.size - v0.dataSize < c.minWrite
                    then CalledWrite(c, old(CallsOf(calls, Callback(t))), mid, v1, oks[0])
                    else mid == old(CallsOf(calls, Callback(t))))
                && CalledRead(c, mid, CallsOf(calls, Callback(t)), v1, oks[|oks| - 1])
    {
      hide Reached, Mine, Step, Enabled, Tries, Restarts, Quiet, CallsOf, CalledRead, CalledWrite;
      ReadDoneIs(c, mem0, trace, s, t, n);
      k, oks := 0, [];
      NoTries(Exchange(t));
      RestartsAre(t);
      var w := Word(readOffset, dataSize);
      v0, v1, mid := w, w, CallsOf(calls, Callback(t));
      Did(ReadDone(t, n));
      if n != 0 {
        var u, full, u0;
        u, full, k, u0 := CommitRead(t, n, w);
        v0, v1 := u0, u;
        oks, mid := ResumeFromRead(t, u, full);
      }
      last := EndIo(t);
    }

    /** The `WriteAsync(0, 0)` of `Start`: the whole ring is free. */
    method Start() returns (ok: bool)
      requires Valid() && s.starting
      modifies this, memory
      ensures Valid() && old(trace) <= trace && !s.starting
      ensures Mine(trace, Starter) == old(Mine(trace, Starter)) + [Begin(ok)]
      ensures ok ==> s.write == Active(Interval(c, 0, c.size), map[])
      ensures c.size > 0
      ensures Called(c, old(CallsOf(calls, Starter)), CallsOf(calls, Starter), true, true, 0, c.size, ok)
    {
      hide Reached, Mine, Step, Enabled, RingSpec.BuildBuffers, Cells, Interval, CallsOf, InMemory;
      Others(Starter);
      BeginIs(c, mem0, trace, s, true);
      BeginIs(c, mem0, trace, s, false);
      WordRange(c, mem0, trace, s);
      var wb := new WsaBuf[2](_ => WsaBuf(0, 0));
      var n := BuildBuffers(wb, 0, c.size);
      ok := BeginTransfer(Starter, true, wb[..n]);
      if ok {
        ioCount := ioCount + 1;
      }
      Did(Begin(ok));
    }

    /** `Stop`: gives back the count of `Start`, once. */
    method Stop() returns (last: bool)
      requires Valid() && !s.starting && !s.stopped
      modifies this, memory
      ensures Valid() && old(trace) <= trace && s.stopped && (last <==> Quiet(s)) && (last ==> s.ioStops == 1)
      ensures calls == old(calls)
    {
      hide Reached, Mine, Step, Enabled;
      StopIs(c, mem0, trace, s);
      ioCount := ioCount - 1;
      last := ioCount == 0;
      Did(Event.Stop);
      StopCounted(c, mem0, trace, s);
    }
  }

  function Restarts(t: nat, oks: seq<bool>): seq<Event> {
    seq(|oks|, i requires 0 <= i < |oks| => Restart(t, oks[i]))
  }

  lemma RestartsAre(t: nat)
    ensures Restarts(t, []) == []
    ensures forall a :: Restarts(t, [a]) == [Restart(t, a)]
    ensures forall a, b :: Restarts(t, [a] + [b]) == [Restart(t, a)] + [Restart(t, b)]
    ensures forall b :: Restarts(t, [] + [b]) == [Restart(t, b)]
  {
  }

  /** What a restarting callback does next. */
  function After(pc: Thread): Thread {
    match pc
    case EndWriteRestartRead(v) => EndWriteRestartWrite(v)
    case EndReadRestartWrite(v) => EndReadRestartRead(v)
    case _ => Leaving
  }

  lemma RestartRange(c: Config, mem0: seq<Byte>, trace: seq<Event>, s: State, t: nat, v: Word, pc: Thread, ok: bool)
    requires Reached(c, mem0, trace, s) && Stands(s, t, pc)
    requires pc in {EndWriteRestartRead(v), EndReadRestartRead(v), EndWriteRestartWrite(v), EndReadRestartWrite(v)}
    ensures c.Valid() && c.size > 0 && |s.mem| == c.size && Can(c, s, Restart(t, ok)) && v.dataSize <= c.size
  {
    EnabledCan(c, s, Restart(t, ok));
    hide Run;
  }

  lemma ReadIs(c: Config, s: State, v: Word, ok: bool)
    requires c.Valid() && c.size > 0 && v.dataSize <= c.size
    ensures c.CanRead(v.dataSize) ==> v.dataSize > 0
    ensures var s' := ReadAsync(c, s, v, ok);
            && s'.ioCount == (if ok && c.CanRead(v.dataSize) then s.ioCount + 1 else s.ioCount)
            && (ok && c.CanRead(v.dataSize) ==>
                  s'.read == Active(Interval(c, v.readOffset, v.readOffset + v.dataSize), map[]))
  {
    if c.CanRead(v.dataSize) {
      BuildBuffersCovers(c, v.readOffset, v.readOffset + v.dataSize);
    }
    hide Cells, Interval, BuildBuffers;
  }

  lemma WriteIs(c: Config, s: State, v: Word, ok: bool)
    requires c.Valid() && c.size > 0 && v.dataSize <= c.size
    ensures c.CanWrite(v.dataSize) ==> v.dataSize < c.size
    ensures var s' := WriteAsync(c, s, v, ok);
            && s'.ioCount == (if ok && c.CanWrite(v.dataSize) then s.ioCount + 1 else s.ioCount)
            && (ok && c.CanWrite(v.dataSize) ==>
                  s'.write == Active(Interval(c, v.readOffset + v.dataSize, v.readOffset + c.size), map[]))
  {
    FreeSpace(c, v.dataSize);
    if c.CanWrite(v.dataSize) {
      BuildBuffersCovers(c, v.readOffset + v.dataSize, v.readOffset + c.size);
    }
    hide Cells, Interval, BuildBuffers;
  }

  predicate Reading(pc: Thread) {
    pc.EndWriteRestartRead? || pc.EndReadRestartRead?
  }

  lemma RestartStep(c: Config, s: State, t: nat, v: Word, pc: Thread, ok: bool)
    requires c.size > 0 && Can(c, s, Restart(t, ok)) && Stands(s, t, pc) && v.dataSize <= c.size
    requires pc in {EndWriteRestartRead(v), EndReadRestartRead(v), EndWriteRestartWrite(v), EndReadRestartWrite(v)}
    ensures Step(c, s, Restart(t, ok)) ==
            At(if Reading(pc) then ReadAsync(c, s, v, ok) else WriteAsync(c, s, v, ok), t, After(pc))
  {
    hide ReadAsync, WriteAsync, At, Inv;
  }

  lemma RestartIs(c: Config, mem0: seq<Byte>, trace: seq<Event>, s: State, t: nat, v: Word, pc: Thread, ok: bool)
    requires Reached(c, mem0, trace, s) && Stands(s, t, pc)
    requires pc in {EndWriteRestartRead(v), EndReadRestartRead(v), EndWriteRestartWrite(v), EndReadRestartWrite(v)}
    ensures c.Valid() && c.size > 0 && v.dataSize <= c.size && |s.mem| == c.size && Enabled(s, Restart(t, ok))
    ensures c.CanRead(v.dataSize) ==> v.dataSize > 0
    ensures c.CanWrite(v.dataSize) ==> v.dataSize < c.size
    ensures var s' := Step(c, s, Restart(t, ok));
            var starts := ok && if Reading(pc) then c.CanRead(v.dataSize) else c.CanWrite(v.dataSize);
            && s'.word == s.word && s'.mem == s.mem && Stands(s', t, After(pc))
            && s'.ioCount == (if starts then s.ioCount + 1 else s.ioCount)
            && (starts && Reading(pc) ==>
                  s'.read == Active(Interval(c, v.readOffset, v.readOffset + v.dataSize), map[]))
            && (starts && !Reading(pc) ==>
                  s'.write == Active(Interval(c, v.readOffset + v.dataSize, v.readOffset + c.size), map[]))
  {
    RestartRange(c, mem0, trace, s, t, v, pc, ok);
    RestartStep(c, s, t, v, pc, ok);
    hide Reached, Inv, Cells, Interval, BuildBuffers, ReadAsync, WriteAsync, Step, Can;
    ReadIs(c, s, v, ok);
    WriteIs(c, s, v, ok);
    AsyncKeeps(c, s, v, ok);
  }

  lemma LeaveIs(c: Config, mem0: seq<Byte>, trace: seq<Event>, s: State, t: nat)
    requires Reached(c, mem0, trace, s) && Stands(s, t, Leaving)
    ensures Enabled(s, Leave(t))
    ensures var s' := Step(c, s, Leave(t));
            s'.word == s.word && s'.mem == s.mem && s'.ioCount == s.ioCount - 1 && t !in s'.threads
  {
  }

  lemma StopCounted(c: Config, mem0: seq<Byte>, trace: seq<Event>, s: State)
    requires Reached(c, mem0, trace, s)
    ensures s.ioCount == 0 <==> Quiet(s)
    ensures Quiet(s) ==> s.ioStops == 1
  {
    InvIoCounted(c, s);
    hide Run, Inv, Enabled;
    assert |s.threads| == 0 <==> s.threads == map[];
  }

  lemma WordRange(c: Config, mem0: seq<Byte>, trace: seq<Event>, s: State)
    requires Reached(c, mem0, trace, s)
    ensures c.Valid() && c.size > 0 && s.word.dataSize <= c.size
    ensures c.CanWrite(s.word.dataSize) <==> c.size - s.word.dataSize >= c.minWrite
  {
    hide Run;
  }

  lemma ExchangeWriteIs(c: Config, mem0: seq<Byte>, trace: seq<Event>, s: State, t: nat, n: nat, v0: Word)
    requires Reached(c, mem0, trace, s) && Stands(s, t, EndWriteExchange(n, v0))
    ensures c.size > 0 && Enabled(s, Exchange(t))
    ensures var s', v1 := Step(c, s, Exchange(t)), Word(v0.readOffset, U32(v0.dataSize + n));
            && s'.mem == s.mem && s'.ioCount == s.ioCount
            && if s.word == v0
               then s'.word == v1 && Stands(s', t, if c.CanRead(v0.dataSize) then EndWriteRestartWrite(v1)
                   else EndWriteRestartRead(v1))
               else s'.word == s.word && Stands(s', t, EndWriteExchange(n, s.word))
  {
    hide Run, Inv, U32;
  }

  lemma ExchangeReadIs(c: Config, mem0: seq<Byte>, trace: seq<Event>, s: State, t: nat, n: nat, v0: Word)
    requires Reached(c, mem0, trace, s) && Stands(s, t, EndReadExchange(n, v0))
    ensures c.size > 0 && Enabled(s, Exchange(t))
    ensures var s', v1 := Step(c, s, Exchange(t)), Word(Cell(c, U32(v0.readOffset + n)), U32(v0.dataSize - n));
            && s'.mem == s.mem && s'.ioCount == s.ioCount
            && if s.word == v0
               then s'.word == v1 && Stands(s', t, if c.CanWrite(v0.dataSize) then EndReadRestartRead(v1)
                   else EndReadRestartWrite(v1))
               else s'.word == s.word && Stands(s', t, EndReadExchange(n, s.word))
  {
    hide Run, Inv, U32, Cell;
  }

  lemma WriteDoneIs(c: Config, mem0: seq<Byte>, trace: seq<Event>, s: State, t: nat, n: nat)
    requires Reached(c, mem0, trace, s) && t !in s.threads && Completes(s.write, n)
    ensures c.size > 0 && Enabled(s, WriteDone(t, n))
    ensures var s' := Step(c, s, WriteDone(t, n));
            && s'.word == s.word && s'.mem == s.mem && s'.ioCount == s.ioCount
            && Stands(s', t, if n == 0 then Leaving else EndWriteExchange(n, s.word))
  {
    hide Run, Inv, Reported;
  }

  lemma ReadDoneIs(c: Config, mem0: seq<Byte>, trace: seq<Event>, s: State, t: nat, n: nat)
    requires Reached(c, mem0, trace, s) && t !in s.threads && Completes(s.read, n)
    ensures c.size > 0 && Enabled(s, ReadDone(t, n))
    ensures var s' := Step(c, s, ReadDone(t, n));
            && s'.word == s.word && s'.mem == s.mem && s'.ioCount == s.ioCount
            && Stands(s', t, if n == 0 then Leaving else EndReadExchange(n, s.word))
  {
    hide Run, Inv, Reported;
  }

  lemma BeginIs(c: Config, mem0: seq<Byte>, trace: seq<Event>, s: State, ok: bool)
    requires Reached(c, mem0, trace, s) && s.starting
    ensures c.size > 0 && |s.mem| == c.size && Enabled(s, Begin(ok))
    ensures var s' := Step(c, s, Begin(ok));
            && s'.word == s.word && s'.mem == s.mem && !s'.starting
            && s'.ioCount == (if ok then s.ioCount + 1 else s.ioCount)
            && (ok ==> s'.write == Active(Interval(c, 0, c.size), map[]))
  {
    FreeSpace(c, 0);
    WriteIs(c, s.(starting := false), Word(0, 0), ok);
    AsyncKeeps(c, s.(starting := false), Word(0, 0), ok);
    hide Run, WriteAsync, Interval;
  }

  lemma StopIs(c: Config, mem0: seq<Byte>, trace: seq<Event>, s: State)
    requires Reached(c, mem0, trace, s) && !s.starting && !s.stopped
    ensures c.size > 0 && Enabled(s, Event.Stop)
    ensures var s' := Step(c, s, Event.Stop);
            s'.word == s.word && s'.mem == s.mem && s'.ioCount == s.ioCount - 1 && s'.stopped
  {
    hide Run, Inv;
  }
}
