/** What the ring promises in every state of every run. Each property is a predicate of one
    state; `EveryRun` states them all for the state after any sequence of events. */
module RingTheorems {
  import opened Words
  import opened RingSpec
  import opened RingProof

  /** The state after a sequence of events, or None when one of them was not possible. */
  ghost function Run(c: Config, mem: seq<Byte>, events: seq<Event>): (r: Option<State>)
    requires c.Valid() && |mem| == c.size
    ensures r.Some? ==> Inv(c, r.value)
  {
    if events == [] then
      StartEstablishes(c, mem);
      Some(Start(c, mem))
    else
      var before := Run(c, mem, events[..|events| - 1]);
      var e := events[|events| - 1];
      if before.None? || !Enabled(before.value, e) then None
      else
        EnabledCan(c, before.value, e);
        StepKeeps(c, before.value, e);
        Some(Step(c, before.value, e))
  }

  // ---- FIFO --------------------------------------------------------------------------

  /** The bytes in the data area of the ring, from the read offset on. */
  function Contents(c: Config, s: State): (r: seq<Byte>)
    requires 0 < c.size == |s.mem|
  {
    seq(s.word.dataSize, k requires 0 <= k => s.mem[Cell(c, s.word.readOffset + k)])
  }

  /** Readers got a prefix of what producers reported, the data area holds exactly the
      committed bytes not yet released, in order, and a byte the consuming device has fetched
      is the byte it will be charged with. */
  predicate IsFifo(c: Config, s: State) {
    && s.delivered <= s.produced
    && s.consumed <= |s.delivered| <= s.committed <= |s.produced|
    && 0 < c.size == |s.mem| && Contents(c, s) == s.produced[s.consumed..s.committed]
    && (s.read.Active? ==>
          forall k :: k in s.read.moved ==>
                  s.consumed + k < s.committed && s.read.moved[k] == s.produced[s.consumed + k])
  }

  lemma UnreadByte(c: Config, s: State, k: nat)
    requires Inv(c, s) && k < s.word.dataSize
    ensures s.mem[Cell(c, s.word.readOffset + k)] == s.produced[s.consumed + k]
  {
    FoldCell(c, s.consumed, k);
    hide Cell, ThreadsOk, Exclusive, Live, CountOk, WriteOk, ReadOk;
    assert s.mem[Cell(c, s.consumed + k)] == s.produced[s.consumed + k];
  }

  lemma InvIsFifo(c: Config, s: State)
    requires Inv(c, s)
    ensures IsFifo(c, s)
  {
    forall k | 0 <= k < s.word.dataSize
      ensures Contents(c, s)[k] == s.produced[s.consumed..s.committed][k]
    {
      UnreadByte(c, s, k);
    }
    hide Cell, ThreadsOk, Exclusive, Live, CountOk, WriteOk;
  }

  // ---- Overlap -----------------------------------------------------------------------

  /** A write in flight touches no byte that was produced and not yet released, no cell twice,
      and no cell of a read in flight, whatever happened since its snapshot was taken. */
  predicate NoOverlap(c: Config, s: State) {
    c.size > 0 && (s.write.Active? ==>
      && (forall p, k :: s.consumed <= p < |s.produced| && 0 <= k < |s.write.cells| ==> Cell(c, p) != s.write.cells[k])
      && (forall j, k :: 0 <= j < k < |s.write.cells| ==> s.write.cells[j] != s.write.cells[k])
      && (s.read.Active? ==>
            forall j, k :: 0 <= j < |s.read.cells| && 0 <= k < |s.write.cells| ==> s.read.cells[j] != s.write.cells[k]))
  }

  lemma InvNoOverlap(c: Config, s: State)
    requires Inv(c, s)
    ensures NoOverlap(c, s)
  {
    if s.write.Active? {
      NoExchangeWhileWriting(c, s);
      hide Cell, ThreadsOk, Exclusive, Live, CountOk;
      forall p, k | s.consumed <= p < |s.produced| && 0 <= k < |s.write.cells|
        ensures Cell(c, p) != s.write.cells[k]
      {
        DistinctCells(c, p, s.committed + k);
      }
      forall j, k | 0 <= j < k < |s.write.cells| ensures s.write.cells[j] != s.write.cells[k] {
        DistinctCells(c, s.committed + j, s.committed + k);
      }
      if s.read.Active? {
        forall j, k | 0 <= j < |s.read.cells| && 0 <= k < |s.write.cells|
          ensures s.read.cells[j] != s.write.cells[k]
        {
          assert s.read.cells[j] == Cell(c, s.consumed + j);
        }
      }
    }
  }

  // ---- One operation per direction ---------------------------------------------------

  ghost function Writers(c: Config, threads: map<nat, Thread>): set<nat> {
    set t | t in threads && HoldsWrite(c, threads[t])
  }

  ghost function Readers(c: Config, threads: map<nat, Thread>): set<nat> {
    set t | t in threads && HoldsRead(c, threads[t])
  }

  /** Owners of the write direction: outstanding operations and threads that carry an
      uncommitted completion or are about to restart. */
  ghost function WriteOwners(c: Config, s: State): nat {
    Count(s.write) + (if s.starting then 1 else 0) + |Writers(c, s.threads)|
  }

  ghost function ReadOwners(c: Config, s: State): nat {
    Count(s.read) + |Readers(c, s.threads)|
  }

  /** Exactly one owner when the free space (or the data) allows an operation and the
      direction has not ended, none otherwise: a restart is neither missed nor doubled. Hence
      a ring with no owner has seen a zero-byte completion. */
  ghost predicate SingleOperation(c: Config, s: State) {
    && s.word.dataSize <= c.size
    && WriteOwners(c, s) == (if c.size - s.word.dataSize >= c.minWrite && !s.writeEnded then 1 else 0)
    && ReadOwners(c, s) == (if s.word.dataSize >= c.minRead && !s.readEnded then 1 else 0)
    && (!s.writeEnded && !s.readEnded ==> WriteOwners(c, s) + ReadOwners(c, s) >= 1)
  }

  lemma AtMostOne(xs: set<nat>)
    requires forall t, u :: t in xs && u in xs ==> t == u
    ensures |xs| == if xs == {} then 0 else 1
  {
    if xs != {} {
      var t :| t in xs;
      assert xs == {t};
    }
  }

  lemma OwnersCounted(c: Config, s: State)
    requires AtMostOneEach(c, s.threads)
    ensures WriteOwners(c, s) == Count(s.write) + (if s.starting then 1 else 0)
            + if SomeWriter(c, s.threads) then 1 else 0
    ensures ReadOwners(c, s) == Count(s.read) + if SomeReader(c, s.threads) then 1 else 0
  {
    var ws, rs := Writers(c, s.threads), Readers(c, s.threads);
    AtMostOne(ws);
    AtMostOne(rs);
    if SomeWriter(c, s.threads) {
      var t :| t in s.threads && HoldsWrite(c, s.threads[t]);
      assert t in ws;
    } else {
      assert ws == {};
    }
    if SomeReader(c, s.threads) {
      var t :| t in s.threads && HoldsRead(c, s.threads[t]);
      assert t in rs;
    } else {
      assert rs == {};
    }
  }

  lemma InvSingleOperation(c: Config, s: State)
    requires Inv(c, s)
    ensures SingleOperation(c, s)
  {
    OwnersCounted(c, s);
    FreeSpace(c, s.word.dataSize);
    hide Cell, U32, ThreadsOk, Data, CountOk, AtMostOneEach, WriteOwners, ReadOwners;
  }

  // ---- Counting and shutdown ---------------------------------------------------------

  ghost predicate Quiet(s: State) {
    s.stopped && s.threads == map[] && s.write == Idle && s.read == Idle
  }

  /** The I/O count is the outstanding operations, the callbacks still running, and one until
      `Stop`. `OnIoStop` has fired, exactly once, exactly when all of them are gone, and then
      nothing can happen any more; no operation ever raises the count from zero. */
  ghost predicate IoCounted(c: Config, s: State) {
    && s.ioCount == (if s.stopped then 0 else 1) + |s.threads| + Count(s.write) + Count(s.read)
    && s.ioStops == (if Quiet(s) then 1 else 0)
    && (Quiet(s) ==> s.ioCount == 0 && forall e :: !Enabled(s, e))
    && (forall e :: Enabled(s, e) && (e.Begin? || e.Restart?) ==> s.ioCount > 0)
  }

  lemma InvIoCounted(c: Config, s: State)
    requires Inv(c, s)
    ensures IoCounted(c, s)
  {
    hide Cell, ThreadsOk, Data, Live, AtMostOneEach;
    assert |s.threads| == 0 <==> s.threads == map[];
    forall e | Enabled(s, e) && (e.Begin? || e.Restart?) ensures s.ioCount > 0 {
      if e.Restart? { assert e.t in s.threads; }
    }
  }

  // ---- Theorems ----------------------------------------------------------------------

  lemma EveryRun(c: Config, mem: seq<Byte>, events: seq<Event>)
    requires c.Valid() && |mem| == c.size && Run(c, mem, events).Some?
    ensures var s := Run(c, mem, events).value;
            IsFifo(c, s) && NoOverlap(c, s) && SingleOperation(c, s) && IoCounted(c, s)
  {
    var s := Run(c, mem, events).value;
    hide *;
    InvIsFifo(c, s);
    InvNoOverlap(c, s);
    InvSingleOperation(c, s);
    InvIoCounted(c, s);
  }

  /** One more event never revives an ended direction. */
  lemma EndedStays(c: Config, s: State, e: Event)
    requires c.size > 0 && Can(c, s, e)
    ensures s.writeEnded ==> Step(c, s, e).writeEnded
    ensures s.readEnded ==> Step(c, s, e).readEnded
  {
    hide Inv, BuildBuffers, Cells, Cell;
  }

  /** The last event of a run. */
  lemma LastEvent(c: Config, mem: seq<Byte>, events: seq<Event>, e: Event)
    requires c.Valid() && |mem| == c.size && Run(c, mem, events + [e]).Some?
    ensures Run(c, mem, events).Some? && Can(c, Run(c, mem, events).value, e)
    ensures Run(c, mem, events + [e]).value == Step(c, Run(c, mem, events).value, e)
  {
    assert (events + [e])[..|events|] == events;
    EnabledCan(c, Run(c, mem, events).value, e);
    hide Inv, Step, Enabled;
  }

  /** A direction that ended with zero bytes stays ended for the rest of the run. */
  lemma {:induction false} EndedPersists(c: Config, mem: seq<Byte>, events: seq<Event>, more: seq<Event>)
    requires c.Valid() && |mem| == c.size && Run(c, mem, events).Some? && Run(c, mem, events + more).Some?
    ensures Run(c, mem, events).value.writeEnded ==> Run(c, mem, events + more).value.writeEnded
    ensures Run(c, mem, events).value.readEnded ==> Run(c, mem, events + more).value.readEnded
  {
    hide Run, Step, Inv, Can;
    if more == [] {
      assert events + more == events;
    } else {
      var prefix, e := more[..|more| - 1], more[|more| - 1];
      assert events + more == (events + prefix) + [e];
      LastEvent(c, mem, events + prefix, e);
      EndedPersists(c, mem, events, prefix);
      EndedStays(c, Run(c, mem, events + prefix).value, e);
    }
  }

  /** ... and nobody owns it again. */
  lemma EndedNeverRestarts(c: Config, mem: seq<Byte>, events: seq<Event>, more: seq<Event>)
    requires c.Valid() && |mem| == c.size && Run(c, mem, events).Some? && Run(c, mem, events + more).Some?
    ensures var s, s' := Run(c, mem, events).value, Run(c, mem, events + more).value;
            && (s.writeEnded ==> s'.writeEnded && WriteOwners(c, s') == 0)
            && (s.readEnded ==> s'.readEnded && ReadOwners(c, s') == 0)
  {
    hide Run, Inv, WriteOwners, ReadOwners, IsFifo, NoOverlap, IoCounted;
    EndedPersists(c, mem, events, more);
    EveryRun(c, mem, events + more);
  }
}
