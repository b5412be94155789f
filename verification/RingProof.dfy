/** Safety of the ring over every run: FIFO delivery, no overlap of in-flight buffers, exactly
    one operation per direction, and the I/O count. */
module RingProof {
  import opened Words
  import opened RingSpec
  import Modulo

  // ---- Cells -------------------------------------------------------------------------

  /** Two byte positions less than one ring apart never share a cell. */
  lemma DistinctCells(c: Config, p: nat, q: nat)
    requires c.size > 0 && p < q + c.size && q < p + c.size && p != q
    ensures Cell(c, p) != Cell(c, q)
  {
    if p < q { Modulo.Distinct(p, q, c.size); } else { Modulo.Distinct(q, p, c.size); }
  }

  lemma FoldCell(c: Config, p: nat, k: nat)
    requires c.size > 0
    ensures Cell(c, Cell(c, p) + k) == Cell(c, p + k)
  {
    Modulo.Fold(p, k, c.size);
  }

  /** Intervals whose starts fall in the same cell name the same cells. */
  lemma SameInterval(c: Config, p: nat, n: nat)
    requires c.size > 0
    ensures Interval(c, Cell(c, p), Cell(c, p) + n) == Interval(c, p, p + n)
  {
    var a, b := Interval(c, Cell(c, p), Cell(c, p) + n), Interval(c, p, p + n);
    forall k | 0 <= k < n ensures a[k] == b[k] {
      FoldCell(c, p, k);
    }
  }

  lemma OnePiece(c: Config, w: WsaBuf)
    requires c.size > 0
    ensures Cells(c, [w]) == Interval(c, w.offset, w.offset + w.length)
  {
    assert Cells(c, [w][1..]) == [];
  }

  lemma TwoPieces(c: Config, v: WsaBuf, w: WsaBuf)
    requires c.size > 0
    ensures Cells(c, [v, w]) == Cells(c, [v]) + Cells(c, [w])
  {
    assert [v, w][1..] == [w] && [v][1..] == [];
  }

  /** The one or two pieces cover exactly the cells of the logical interval, in order, and
      stay inside the mapping. */
  lemma BuildBuffersCovers(c: Config, from: nat, to: nat)
    requires 0 < c.size && from < to <= from + c.size
    ensures Cells(c, BuildBuffers(c, from, to)) == Interval(c, from, to)
    ensures forall w :: w in BuildBuffers(c, from, to) ==>
              0 < w.length && w.offset + w.length <= if c.adjacent then 2 * c.size else c.size
    ensures |BuildBuffers(c, from, to)| <= if c.adjacent then 1 else 2
  {
    var f, t, len := Cell(c, from), Cell(c, to), to - from;
    var wb := BuildBuffers(c, from, to);
    Modulo.WrapOnce(from, len, c.size);
    OnePiece(c, wb[0]);
    if |wb| == 2 {
      var mid := from + (c.size - f);
      Modulo.WrapOnce(from, c.size - f, c.size);
      SameInterval(c, from, c.size - f);
      SameInterval(c, mid, t);
      TwoPieces(c, wb[0], wb[1]);
      OnePiece(c, wb[1]);
      assert Interval(c, from, to) == Interval(c, from, mid) + Interval(c, mid, to);
    } else {
      SameInterval(c, from, len);
    }
  }

  // ---- Invariant ---------------------------------------------------------------------

  /** The thread owns the write direction: it carries an uncommitted completion or is about
      to start the next write. */
  predicate HoldsWrite(c: Config, th: Thread) {
    match th
    case EndWriteExchange(_, _) => true
    case EndReadExchange(_, _) => false
    case EndWriteRestartRead(v) => c.CanWrite(v.dataSize)
    case EndWriteRestartWrite(v) => c.CanWrite(v.dataSize)
    case EndReadRestartWrite(v) => c.CanWrite(v.dataSize)
    case EndReadRestartRead(_) => false
    case Leaving => false
  }

  predicate HoldsRead(c: Config, th: Thread) {
    match th
    case EndReadExchange(_, _) => true
    case EndWriteExchange(_, _) => false
    case EndReadRestartWrite(v) => c.CanRead(v.dataSize)
    case EndReadRestartRead(v) => c.CanRead(v.dataSize)
    case EndWriteRestartRead(v) => c.CanRead(v.dataSize)
    case EndWriteRestartWrite(_) => false
    case Leaving => false
  }

  ghost predicate SomeWriter(c: Config, threads: map<nat, Thread>) {
    exists t :: t in threads && HoldsWrite(c, threads[t])
  }

  ghost predicate SomeReader(c: Config, threads: map<nat, Thread>) {
    exists t :: t in threads && HoldsRead(c, threads[t])
  }

  ghost predicate AtMostOneEach(c: Config, threads: map<nat, Thread>) {
    && (forall t, u ::
            t in threads && u in threads && HoldsWrite(c, threads[t]) && HoldsWrite(c, threads[u]) ==> t == u)
    && (forall t, u :: t in threads && u in threads && HoldsRead(c, threads[t]) && HoldsRead(c, threads[u]) ==> t == u)
  }

  /** A write (or read) is outstanding, uncommitted or about to start. */
  ghost predicate Writing(c: Config, s: State) {
    s.starting || s.write.Active? || SomeWriter(c, s.threads)
  }

  ghost predicate Reading(c: Config, s: State) {
    s.read.Active? || SomeReader(c, s.threads)
  }

  predicate WordOk(c: Config, word: Word, committed: nat, consumed: nat) {
    && c.Valid()
    && consumed <= committed <= consumed + c.size
    && word == Word(Cell(c, consumed), committed - consumed)
  }

  ghost predicate Exclusive(c: Config, s: State) {
    && (s.starting ==> s.threads == map[] && s.write == Idle && s.read == Idle && s.committed == 0
                       && !s.writeEnded && !s.readEnded && !s.stopped)
    && (s.write.Active? ==> !SomeWriter(c, s.threads))
    && (s.read.Active? ==> !SomeReader(c, s.threads))
    && AtMostOneEach(c, s.threads)
  }

  /** A direction is in use exactly when the word permits it and it has not ended. */
  ghost predicate Live(c: Config, s: State) {
    && (Writing(c, s) <==> c.CanWrite(s.word.dataSize) && !s.writeEnded)
    && (Reading(c, s) <==> c.CanRead(s.word.dataSize) && !s.readEnded)
    && (s.writeEnded ==> c.CanWrite(s.word.dataSize))
    && (s.readEnded ==> c.CanRead(s.word.dataSize))
  }

  /** What a thread's local snapshot still says about the current word. */
  predicate ThreadOk(c: Config, th: Thread, committed: nat, consumed: nat, produced: nat, delivered: nat)
    requires c.size > 0
  {
    match th
    case EndWriteExchange(n, v0) =>
      0 < n && committed + n <= consumed + c.size && produced == committed + n
    case EndReadExchange(n, v0) =>
      0 < n && consumed + n <= committed && delivered == consumed + n
    case Leaving => true
    case _ =>
      && th.v1.readOffset < c.size && th.v1.dataSize <= c.size
      && (HoldsWrite(c, th) ==> Cell(c, th.v1.readOffset + th.v1.dataSize) == Cell(c, committed)
                                && committed - consumed <= th.v1.dataSize)
      && (HoldsRead(c, th) ==> th.v1.readOffset == Cell(c, consumed) && th.v1.dataSize <= committed - consumed)
  }

  ghost predicate ThreadsOk(c: Config, threads: map<nat, Thread>, committed: nat, consumed: nat, produced: nat,
                            delivered: nat)
    requires c.size > 0
  {
    && (forall t :: t in threads ==> ThreadOk(c, threads[t], committed, consumed, produced, delivered))
    && (produced == committed || exists t :: t in threads && threads[t].EndWriteExchange?)
    && (delivered == consumed || exists t :: t in threads && threads[t].EndReadExchange?)
  }

  predicate WriteOk(c: Config, x: Transfer, mem: seq<Byte>, committed: nat, consumed: nat)
    requires c.size > 0 && |mem| == c.size
  {
    x.Active? ==>
      && c.minWrite <= |x.cells| && committed + |x.cells| <= consumed + c.size
      && (forall k :: 0 <= k < |x.cells| ==> x.cells[k] == Cell(c, committed + k))
      && (forall k :: k in x.moved ==> k < |x.cells| && mem[Cell(c, committed + k)] == x.moved[k])
  }

  predicate ReadOk(c: Config, x: Transfer, produced: seq<Byte>, committed: nat, consumed: nat)
    requires c.size > 0 && committed <= |produced|
  {
    x.Active? ==>
      && c.minRead <= |x.cells| && consumed + |x.cells| <= committed
      && (forall k :: 0 <= k < |x.cells| ==> x.cells[k] == Cell(c, consumed + k))
      && (forall k :: k in x.moved ==> k < |x.cells| && x.moved[k] == produced[consumed + k])
  }

  /** Every byte produced and not yet released by the reader sits in its cell. */
  predicate MemoryOk(c: Config, mem: seq<Byte>, produced: seq<Byte>, delivered: seq<Byte>, committed: nat,
                     consumed: nat)
    requires c.size > 0
  {
    && |mem| == c.size
    && committed <= |produced| <= consumed + c.size
    && (forall p :: consumed <= p < |produced| ==> mem[Cell(c, p)] == produced[p])
    && consumed <= |delivered| <= committed
    && delivered == produced[..|delivered|]
  }

  function Count(x: Transfer): nat {
    if x.Active? then 1 else 0
  }

  predicate CountOk(s: State) {
    && s.ioCount == (if s.stopped then 0 else 1) + |s.threads| + Count(s.write) + Count(s.read)
    && s.ioStops == if s.ioCount == 0 then 1 else 0
  }

  /** The control part: word, threads, directions and the I/O count. */
  ghost predicate Control(c: Config, s: State) {
    && WordOk(c, s.word, s.committed, s.consumed)
    && Exclusive(c, s) && Live(c, s)
    && ThreadsOk(c, s.threads, s.committed, s.consumed, |s.produced|, |s.delivered|)
    && CountOk(s)
  }

  /** The data part: what the in-flight buffers and the memory hold. */
  ghost predicate Data(c: Config, s: State)
    requires c.size > 0
  {
    && MemoryOk(c, s.mem, s.produced, s.delivered, s.committed, s.consumed)
    && WriteOk(c, s.write, s.mem, s.committed, s.consumed)
    && ReadOk(c, s.read, s.produced, s.committed, s.consumed)
  }

  ghost predicate Inv(c: Config, s: State) {
    Control(c, s) && Data(c, s)
  }

  lemma StartEstablishes(c: Config, mem: seq<Byte>)
    requires c.Valid() && |mem| == c.size
    ensures Inv(c, Start(c, mem))
  {
  }

  /** Every enabled event is well defined: the snapshot of a restarting thread is in range. */
  ghost predicate Can(c: Config, s: State, e: Event)
    requires c.size > 0
  {
    Enabled(s, e) && (e.Restart? ==> s.threads[e.t].v1.dataSize <= c.size)
  }

  lemma EnabledCan(c: Config, s: State, e: Event)
    requires Inv(c, s) && Enabled(s, e)
    ensures Can(c, s, e)
  {
  }

  /** In range, the unsigned subtraction of `CanWrite` does not wrap. */
  lemma FreeSpace(c: Config, dataSize: nat)
    requires c.Valid() && dataSize <= c.size
    ensures c.CanWrite(dataSize) <==> dataSize + c.minWrite <= c.size
    ensures c.CanWrite(dataSize) || c.CanRead(dataSize)
  {
  }

  // ---- Holders and threads -----------------------------------------------------------

  ghost predicate OtherWriter(c: Config, threads: map<nat, Thread>, t: nat) {
    exists u :: u in threads && u != t && HoldsWrite(c, threads[u])
  }

  ghost predicate OtherReader(c: Config, threads: map<nat, Thread>, t: nat) {
    exists u :: u in threads && u != t && HoldsRead(c, threads[u])
  }

  /** Who holds a direction before and after thread `t` moves to `pc`. */
  lemma MoveHolders(c: Config, threads: map<nat, Thread>, t: nat, pc: Thread)
    ensures SomeWriter(c, threads[t := pc]) <==> HoldsWrite(c, pc) || OtherWriter(c, threads, t)
    ensures SomeReader(c, threads[t := pc]) <==> HoldsRead(c, pc) || OtherReader(c, threads, t)
    ensures SomeWriter(c, threads) <==> (t in threads && HoldsWrite(c, threads[t])) || OtherWriter(c, threads, t)
    ensures SomeReader(c, threads) <==> (t in threads && HoldsRead(c, threads[t])) || OtherReader(c, threads, t)
    ensures SomeWriter(c, threads - {t}) <==> OtherWriter(c, threads, t)
    ensures SomeReader(c, threads - {t}) <==> OtherReader(c, threads, t)
  {
    var m, r := threads[t := pc], threads - {t};
    assert m[t] == pc;
    if OtherWriter(c, threads, t) {
      var u :| u in threads && u != t && HoldsWrite(c, threads[u]);
      assert u in m && HoldsWrite(c, m[u]) && u in r && HoldsWrite(c, r[u]);
    }
    if OtherReader(c, threads, t) {
      var u :| u in threads && u != t && HoldsRead(c, threads[u]);
      assert u in m && HoldsRead(c, m[u]) && u in r && HoldsRead(c, r[u]);
    }
  }

  /** Holding stays exclusive when `t` only takes directions nobody else holds. */
  lemma MoveExclusive(c: Config, threads: map<nat, Thread>, t: nat, pc: Thread)
    requires AtMostOneEach(c, threads)
    requires HoldsWrite(c, pc) ==> !OtherWriter(c, threads, t)
    requires HoldsRead(c, pc) ==> !OtherReader(c, threads, t)
    ensures AtMostOneEach(c, threads[t := pc])
  {
  }

  lemma Alone(c: Config, threads: map<nat, Thread>, t: nat)
    requires AtMostOneEach(c, threads) && t in threads
    ensures HoldsWrite(c, threads[t]) ==> !OtherWriter(c, threads, t)
    ensures HoldsRead(c, threads[t]) ==> !OtherReader(c, threads, t)
  {
  }

  lemma LeaveExclusive(c: Config, threads: map<nat, Thread>, t: nat)
    requires AtMostOneEach(c, threads)
    ensures AtMostOneEach(c, threads - {t})
  {
  }

  /** A thread moved to `pc` keeps the thread invariant if `pc` fits the new totals, the
      other threads still do, and no uncommitted completion is forgotten. */
  lemma MoveThreads(c: Config, threads: map<nat, Thread>, t: nat, pc: Thread,
                    committed: nat, consumed: nat, produced: nat, delivered: nat)
    requires c.size > 0
    requires ThreadOk(c, pc, committed, consumed, produced, delivered)
    requires forall u :: u in threads && u != t ==> ThreadOk(c, threads[u], committed, consumed, produced, delivered)
    requires pc.EndWriteExchange? || produced == committed
             || exists u :: u in threads && u != t && threads[u].EndWriteExchange?
    requires pc.EndReadExchange? || delivered == consumed
             || exists u :: u in threads && u != t && threads[u].EndReadExchange?
    ensures ThreadsOk(c, threads[t := pc], committed, consumed, produced, delivered)
  {
    hide Cell, ThreadOk;
    var m := threads[t := pc];
    assert m[t] == pc;
    assert forall u :: u in threads && u != t ==> u in m && m[u] == threads[u];
  }

  ghost predicate Directions(c: Config, s: State) {
    WordOk(c, s.word, s.committed, s.consumed) && Exclusive(c, s) && Live(c, s) && CountOk(s)
  }

  lemma NoExchangeWhileWriting(c: Config, s: State)
    requires Control(c, s) && s.write.Active?
    ensures |s.produced| == s.committed
  {
    hide Cell;
  }

  lemma NoExchangeWhileReading(c: Config, s: State)
    requires Control(c, s) && s.read.Active?
    ensures |s.delivered| == s.consumed
  {
    hide Cell;
  }

  // ---- Device activity and completions -----------------------------------------------

  lemma StoreData(c: Config, s: State, k: nat, b: Byte)
    requires c.size > 0 && Data(c, s) && |s.produced| == s.committed
    requires s.write.Active? && k < |s.write.cells| && s.write.cells[k] < |s.mem|
    ensures Data(c, Stored(s, k, b))
  {
    hide Cell;
    var s' := Stored(s, k, b);
    forall p | s.consumed <= p < |s.produced| ensures s'.mem[Cell(c, p)] == s'.produced[p] {
      DistinctCells(c, p, s.committed + k);
    }
    forall j | j in s'.write.moved && j != k ensures s'.mem[Cell(c, s.committed + j)] == s'.write.moved[j] {
      DistinctCells(c, s.committed + j, s.committed + k);
    }
  }

  lemma StoreKeeps(c: Config, s: State, k: nat, b: Byte)
    requires Inv(c, s) && s.write.Active? && k < |s.write.cells| && s.write.cells[k] < |s.mem|
    ensures Inv(c, Stored(s, k, b))
  {
    NoExchangeWhileWriting(c, s);
    StoreData(c, s, k, b);
    hide Cell, Data, SomeWriter, SomeReader, AtMostOneEach, ThreadsOk;
  }

  lemma FetchKeeps(c: Config, s: State, k: nat)
    requires Inv(c, s) && s.read.Active? && k < |s.read.cells| && s.read.cells[k] < |s.mem|
    ensures Inv(c, Fetched(s, k))
  {
    hide Cell, SomeWriter, SomeReader, AtMostOneEach, ThreadsOk, WriteOk;
  }

  /** The bytes a completed write reports extend the produced history in memory. */
  lemma ProduceData(c: Config, w: Transfer, r: Transfer, n: nat, mem: seq<Byte>,
                    produced: seq<Byte>, delivered: seq<Byte>, committed: nat, consumed: nat)
    requires c.size > 0 && MemoryOk(c, mem, produced, delivered, committed, consumed)
    requires WriteOk(c, w, mem, committed, consumed) && ReadOk(c, r, produced, committed, consumed)
    requires Completes(w, n) && |produced| == committed
    ensures MemoryOk(c, mem, produced + Reported(w, n), delivered, committed, consumed)
    ensures ReadOk(c, r, produced + Reported(w, n), committed, consumed)
  {
    hide Cell;
    var produced' := produced + Reported(w, n);
    forall p | consumed <= p < |produced'| ensures mem[Cell(c, p)] == produced'[p] {
      if p >= committed {
        assert p - committed in w.moved && p == committed + (p - committed);
      }
    }
  }

  /** The bytes a completed read reports are the next produced ones. */
  lemma DeliverData(c: Config, r: Transfer, n: nat, mem: seq<Byte>,
                    produced: seq<Byte>, delivered: seq<Byte>, committed: nat, consumed: nat)
    requires c.size > 0 && MemoryOk(c, mem, produced, delivered, committed, consumed)
    requires ReadOk(c, r, produced, committed, consumed)
    requires Completes(r, n) && |delivered| == consumed
    ensures MemoryOk(c, mem, produced, delivered + Reported(r, n), committed, consumed)
  {
    hide Cell;
    var delivered' := delivered + Reported(r, n);
    forall k | 0 <= k < |delivered'| ensures delivered'[k] == produced[k] {
      if k >= consumed {
        assert k - consumed in r.moved;
      }
    }
  }

  lemma WriteEndedThreads(c: Config, s: State, t: nat, n: nat)
    requires Inv(c, s) && t !in s.threads && Completes(s.write, n)
    ensures var s' := WriteEnded(s, t, n);
            ThreadsOk(c, s'.threads, s'.committed, s'.consumed, |s'.produced|, |s'.delivered|)
  {
    var pc := if n == 0 then Leaving else EndWriteExchange(n, s.word);
    NoExchangeWhileWriting(c, s);
    hide Cell, Live, CountOk, Reported;
    assert forall u :: u in s.threads ==> !HoldsWrite(c, s.threads[u]);
    MoveThreads(c, s.threads, t, pc, s.committed, s.consumed, |s.produced| + n, |s.delivered|);
  }

  lemma WriteEndedDirections(c: Config, s: State, t: nat, n: nat)
    requires Inv(c, s) && t !in s.threads && Completes(s.write, n)
    ensures Directions(c, WriteEnded(s, t, n))
  {
    var pc := if n == 0 then Leaving else EndWriteExchange(n, s.word);
    MoveHolders(c, s.threads, t, pc);
    MoveExclusive(c, s.threads, t, pc);
    hide Cell, Data, ThreadsOk, SomeWriter, SomeReader, OtherWriter, OtherReader, AtMostOneEach;
  }

  lemma WriteEndedKeeps(c: Config, s: State, t: nat, n: nat)
    requires Inv(c, s) && t !in s.threads && Completes(s.write, n)
    ensures Inv(c, WriteEnded(s, t, n))
  {
    NoExchangeWhileWriting(c, s);
    WriteEndedThreads(c, s, t, n);
    WriteEndedDirections(c, s, t, n);
    hide Cell, ThreadsOk, Exclusive, Live, CountOk, MemoryOk, ReadOk;
    if n > 0 {
      ProduceData(c, s.write, s.read, n, s.mem, s.produced, s.delivered, s.committed, s.consumed);
    }
  }

  lemma ReadEndedThreads(c: Config, s: State, t: nat, n: nat)
    requires Inv(c, s) && t !in s.threads && Completes(s.read, n)
    ensures var s' := ReadEnded(s, t, n);
            ThreadsOk(c, s'.threads, s'.committed, s'.consumed, |s'.produced|, |s'.delivered|)
  {
    var pc := if n == 0 then Leaving else EndReadExchange(n, s.word);
    NoExchangeWhileReading(c, s);
    hide Cell, Live, CountOk, Reported;
    assert forall u :: u in s.threads ==> !HoldsRead(c, s.threads[u]);
    MoveThreads(c, s.threads, t, pc, s.committed, s.consumed, |s.produced|, |s.delivered| + n);
  }

  lemma ReadEndedKeeps(c: Config, s: State, t: nat, n: nat)
    requires Inv(c, s) && t !in s.threads && Completes(s.read, n)
    ensures Inv(c, ReadEnded(s, t, n))
  {
    var pc := if n == 0 then Leaving else EndReadExchange(n, s.word);
    NoExchangeWhileReading(c, s);
    ReadEndedThreads(c, s, t, n);
    MoveHolders(c, s.threads, t, pc);
    MoveExclusive(c, s.threads, t, pc);
    hide Cell, ThreadsOk, SomeWriter, SomeReader, OtherWriter, OtherReader, AtMostOneEach, MemoryOk, WriteOk;
    if n > 0 {
      DeliverData(c, s.read, n, s.mem, s.produced, s.delivered, s.committed, s.consumed);
    }
  }

  lemma LeftThreads(c: Config, s: State, t: nat)
    requires Control(c, s) && t in s.threads && s.threads[t].Leaving?
    ensures ThreadsOk(c, s.threads - {t}, s.committed, s.consumed, |s.produced|, |s.delivered|)
  {
    hide Cell, Live, CountOk, Exclusive, ThreadOk;
    var r := s.threads - {t};
    assert forall u :: u in s.threads ==> u == t || (u in r && r[u] == s.threads[u]);
  }

  lemma LeftDirections(c: Config, s: State, t: nat)
    requires Control(c, s) && t in s.threads && s.threads[t].Leaving?
    ensures Directions(c, Left(s, t))
  {
    MoveHolders(c, s.threads, t, Leaving);
    LeaveExclusive(c, s.threads, t);
    hide Cell, ThreadsOk, SomeWriter, SomeReader, OtherWriter, OtherReader, AtMostOneEach;
    assert |s.threads - {t}| == |s.threads| - 1;
  }

  lemma LeftKeeps(c: Config, s: State, t: nat)
    requires Inv(c, s) && t in s.threads && s.threads[t].Leaving?
    ensures Inv(c, Left(s, t))
  {
    LeftThreads(c, s, t);
    LeftDirections(c, s, t);
    hide Cell, ThreadsOk, Exclusive, Live, CountOk, MemoryOk, ReadOk, WriteOk;
  }

  lemma StoppedKeeps(c: Config, s: State)
    requires Inv(c, s) && !s.starting && !s.stopped
    ensures Inv(c, Stopped(s))
  {
    hide Cell, WriteOk, ReadOk, MemoryOk, ThreadsOk, AtMostOneEach;
  }

  // ---- Compare-exchange attempts -----------------------------------------------------

  /** The read offset after releasing n bytes. */
  lemma ReleaseOffset(c: Config, s: State, n: nat)
    requires WordOk(c, s.word, s.committed, s.consumed) && s.consumed + n <= s.committed
    ensures U32(s.word.readOffset + n) == s.word.readOffset + n
    ensures Cell(c, s.word.readOffset + n) == Cell(c, s.consumed + n)
  {
    FoldCell(c, s.consumed, n);
  }

  /** A commit by one side leaves the snapshots held by the other side usable. */
  lemma CommitThread(c: Config, th: Thread, committed: nat, consumed: nat, produced: nat, delivered: nat, n: nat)
    requires c.size > 0 && ThreadOk(c, th, committed, consumed, produced, delivered)
    ensures !HoldsWrite(c, th) && delivered <= committed
            ==> ThreadOk(c, th, committed + n, consumed, produced, delivered)
    ensures !HoldsRead(c, th) ==> ThreadOk(c, th, committed, consumed + n, produced, delivered)
  {
    hide Cell;
  }

  /** The end of the data, reached from the read offset, is the cell of the next byte. */
  lemma SnapshotCells(c: Config, consumed: nat, committed: nat)
    requires c.size > 0 && consumed <= committed
    ensures Cell(c, Cell(c, consumed) + (committed - consumed)) == Cell(c, committed)
  {
    FoldCell(c, consumed, committed - consumed);
  }

  lemma CommitData(c: Config, mem: seq<Byte>, w: Transfer, r: Transfer,
                   produced: seq<Byte>, delivered: seq<Byte>, committed: nat, consumed: nat, n: nat)
    requires c.size > 0 && MemoryOk(c, mem, produced, delivered, committed, consumed)
    requires WriteOk(c, w, mem, committed, consumed) && ReadOk(c, r, produced, committed, consumed)
    ensures committed + n <= |produced| ==>
              MemoryOk(c, mem, produced, delivered, committed + n, consumed)
                  && ReadOk(c, r, produced, committed + n, consumed)
    ensures consumed + n <= |delivered| ==>
              MemoryOk(c, mem, produced, delivered, committed, consumed + n)
                  && WriteOk(c, w, mem, committed, consumed + n)
  {
    hide Cell;
  }

  /** What the thread of a write completion knows at an attempt. */
  lemma WriteExchangeFacts(c: Config, s: State, t: nat)
    requires Control(c, s) && t in s.threads && s.threads[t].EndWriteExchange?
    ensures ThreadOk(c, s.threads[t], s.committed, s.consumed, |s.produced|, |s.delivered|)
    ensures s.write == Idle && !OtherWriter(c, s.threads, t) && !s.starting
    ensures s.word == s.threads[t].v0 ==> WriteExchanged(c, s, t).word.dataSize == s.word.dataSize + s.threads[t].n
  {
    hide Cell, CountOk;
    Alone(c, s.threads, t);
  }

  lemma WriteExchangedPc(c: Config, s: State, t: nat)
    requires Control(c, s) && t in s.threads && s.threads[t].EndWriteExchange?
    ensures var s' := WriteExchanged(c, s, t);
            ThreadOk(c, s'.threads[t], s'.committed, s'.consumed, |s'.produced|, |s'.delivered|)
  {
    var s' := WriteExchanged(c, s, t);
    WriteExchangeFacts(c, s, t);
    SnapshotCells(c, s.consumed, s'.committed);
    hide Cell, ThreadsOk, Exclusive, Live, CountOk;
  }

  lemma WriteExchangedThreads(c: Config, s: State, t: nat)
    requires Control(c, s) && |s.delivered| <= s.committed && t in s.threads && s.threads[t].EndWriteExchange?
    ensures var s' := WriteExchanged(c, s, t);
            ThreadsOk(c, s'.threads, s'.committed, s'.consumed, |s'.produced|, |s'.delivered|)
  {
    var s' := WriteExchanged(c, s, t);
    var n := s.threads[t].n;
    WriteExchangeFacts(c, s, t);
    WriteExchangedPc(c, s, t);
    forall u | u in s.threads && u != t
      ensures ThreadOk(c, s.threads[u], s'.committed, s'.consumed, |s'.produced|, |s'.delivered|)
    {
      CommitThread(c, s.threads[u], s.committed, s.consumed, |s.produced|, |s.delivered|, n);
    }
    hide Cell, U32, Exclusive, Live, CountOk, ThreadOk;
    MoveThreads(c, s.threads, t, s'.threads[t], s'.committed, s'.consumed, |s'.produced|, |s'.delivered|);
  }

  lemma WriteExchangedDirections(c: Config, s: State, t: nat)
    requires Control(c, s) && t in s.threads && s.threads[t].EndWriteExchange?
    ensures Directions(c, WriteExchanged(c, s, t))
  {
    var pc := WriteExchanged(c, s, t).threads[t];
    WriteExchangeFacts(c, s, t);
    MoveHolders(c, s.threads, t, pc);
    hide Cell, ThreadsOk, SomeWriter, SomeReader, OtherWriter, OtherReader, AtMostOneEach;
    MoveExclusive(c, s.threads, t, pc);
  }

  lemma WriteExchangedKeeps(c: Config, s: State, t: nat)
    requires Inv(c, s) && t in s.threads && s.threads[t].EndWriteExchange?
    ensures Inv(c, WriteExchanged(c, s, t))
  {
    WriteExchangeFacts(c, s, t);
    WriteExchangedThreads(c, s, t);
    WriteExchangedDirections(c, s, t);
    CommitData(c, s.mem, s.write, s.read, s.produced, s.delivered, s.committed, s.consumed, s.threads[t].n);
    hide Cell, ThreadsOk, Exclusive, Live, CountOk, MemoryOk, ReadOk;
  }

  lemma ReaderAlone(c: Config, s: State, t: nat)
    requires Control(c, s) && t in s.threads && s.threads[t].EndReadExchange?
    ensures ThreadOk(c, s.threads[t], s.committed, s.consumed, |s.produced|, |s.delivered|)
    ensures s.read == Idle && !OtherReader(c, s.threads, t) && !s.starting
    ensures WordOk(c, s.word, s.committed, s.consumed)
  {
    hide CountOk, Cell;
    Alone(c, s.threads, t);
  }

  /** What the thread of a read completion knows at an attempt. */
  lemma ReadExchangeFacts(c: Config, s: State, t: nat)
    requires Control(c, s) && t in s.threads && s.threads[t].EndReadExchange?
    ensures ThreadOk(c, s.threads[t], s.committed, s.consumed, |s.produced|, |s.delivered|)
    ensures s.read == Idle && !OtherReader(c, s.threads, t) && !s.starting
    ensures s.word == s.threads[t].v0 ==>
              ReadExchanged(c, s, t).word == Word(Cell(c, s.consumed + s.threads[t].n),
                  s.word.dataSize - s.threads[t].n)
  {
    ReaderAlone(c, s, t);
    ReadExchangedWord(c, s, t);
    hide *;
  }

  lemma ReadExchangedWord(c: Config, s: State, t: nat)
    requires t in s.threads && s.threads[t].EndReadExchange? && WordOk(c, s.word, s.committed, s.consumed)
    requires ThreadOk(c, s.threads[t], s.committed, s.consumed, |s.produced|, |s.delivered|)
    ensures c.size > 0
    ensures s.word == s.threads[t].v0 ==>
              ReadExchanged(c, s, t).word == Word(Cell(c, s.consumed + s.threads[t].n),
                  s.word.dataSize - s.threads[t].n)
  {
    hide Cell;
    if s.word == s.threads[t].v0 {
      ReleaseOffset(c, s, s.threads[t].n);
    }
  }

  lemma ReadExchangedPc(c: Config, s: State, t: nat)
    requires Control(c, s) && t in s.threads && s.threads[t].EndReadExchange?
    ensures var s' := ReadExchanged(c, s, t);
            ThreadOk(c, s'.threads[t], s'.committed, s'.consumed, |s'.produced|, |s'.delivered|)
  {
    var s' := ReadExchanged(c, s, t);
    ReadExchangeFacts(c, s, t);
    SnapshotCells(c, s'.consumed, s.committed);
    hide Cell, U32, ThreadsOk, Exclusive, Live, CountOk;
  }

  lemma ReadExchangedThreads(c: Config, s: State, t: nat)
    requires Control(c, s) && t in s.threads && s.threads[t].EndReadExchange?
    ensures var s' := ReadExchanged(c, s, t);
            ThreadsOk(c, s'.threads, s'.committed, s'.consumed, |s'.produced|, |s'.delivered|)
  {
    var s' := ReadExchanged(c, s, t);
    var n := s.threads[t].n;
    ReadExchangeFacts(c, s, t);
    ReadExchangedPc(c, s, t);
    forall u | u in s.threads && u != t
      ensures ThreadOk(c, s.threads[u], s'.committed, s'.consumed, |s'.produced|, |s'.delivered|)
    {
      CommitThread(c, s.threads[u], s.committed, s.consumed, |s.produced|, |s.delivered|, n);
    }
    hide Cell, U32, Exclusive, Live, CountOk, ThreadOk;
    MoveThreads(c, s.threads, t, s'.threads[t], s'.committed, s'.consumed, |s'.produced|, |s'.delivered|);
  }

  lemma ReadExchangedDirections(c: Config, s: State, t: nat)
    requires Control(c, s) && t in s.threads && s.threads[t].EndReadExchange?
    ensures Directions(c, ReadExchanged(c, s, t))
  {
    var s' := ReadExchanged(c, s, t);
    var pc := s'.threads[t];
    ReadExchangeFacts(c, s, t);
    FreeSpace(c, s.word.dataSize);
    FreeSpace(c, s'.word.dataSize);
    MoveHolders(c, s.threads, t, pc);
    hide Cell, U32, ThreadsOk, SomeWriter, SomeReader, OtherWriter, OtherReader, AtMostOneEach;
    MoveExclusive(c, s.threads, t, pc);
  }

  lemma ReadExchangedKeeps(c: Config, s: State, t: nat)
    requires Inv(c, s) && t in s.threads && s.threads[t].EndReadExchange?
    ensures Inv(c, ReadExchanged(c, s, t))
  {
    ReadExchangeFacts(c, s, t);
    ReadExchangedThreads(c, s, t);
    ReadExchangedDirections(c, s, t);
    CommitData(c, s.mem, s.write, s.read, s.produced, s.delivered, s.committed, s.consumed, s.threads[t].n);
    hide Cell, ThreadsOk, Exclusive, Live, CountOk, MemoryOk, WriteOk;
  }

  // ---- Restarts: the stale snapshot still describes a correct operation ---------------

  /** A restart from a snapshot that still holds the write direction offers exactly the free
      cells that follow the data, counted from the snapshot. */
  lemma RestartWriteCells(c: Config, v: Word, committed: nat, consumed: nat)
    requires c.Valid() && consumed <= committed <= consumed + c.size
    requires v.readOffset < c.size && v.dataSize <= c.size && c.CanWrite(v.dataSize)
    requires Cell(c, v.readOffset + v.dataSize) == Cell(c, committed) && committed - consumed <= v.dataSize
    ensures v.readOffset + c.size < ULONG_RANGE
    ensures Cells(c, BuildBuffers(c, v.readOffset + v.dataSize, v.readOffset + c.size))
            == Interval(c, committed, committed + (c.size - v.dataSize))
    ensures WriteOk(c, Active(Interval(c, committed, committed + (c.size - v.dataSize)), map[]), seq(c.size, _ => 0),
             committed, consumed)
  {
    FreeSpace(c, v.dataSize);
    BuildBuffersCovers(c, v.readOffset + v.dataSize, v.readOffset + c.size);
    SameInterval(c, v.readOffset + v.dataSize, c.size - v.dataSize);
    SameInterval(c, committed, c.size - v.dataSize);
    hide Cell;
  }

  lemma RestartReadCells(c: Config, v: Word, committed: nat, consumed: nat)
    requires c.Valid() && consumed <= committed <= consumed + c.size
    requires v.readOffset == Cell(c, consumed) && v.dataSize <= committed - consumed && c.CanRead(v.dataSize)
    ensures v.readOffset + v.dataSize < ULONG_RANGE
    ensures Cells(c, BuildBuffers(c, v.readOffset, v.readOffset + v.dataSize))
            == Interval(c, consumed, consumed + v.dataSize)
  {
    BuildBuffersCovers(c, v.readOffset, v.readOffset + v.dataSize);
    SameInterval(c, consumed, v.dataSize);
  }

  /** Thread `t` is about to run `ReadAsync` with snapshot `v` and then continues at `next`. */
  predicate AtRead(s: State, t: nat, v: Word, next: Thread) {
    t in s.threads && (
      || (s.threads[t] == EndWriteRestartRead(v) && next == EndWriteRestartWrite(v))
      || (s.threads[t] == EndReadRestartRead(v) && next == Leaving))
  }

  predicate AtWrite(s: State, t: nat, v: Word, next: Thread) {
    t in s.threads && (
      || (s.threads[t] == EndWriteRestartWrite(v) && next == Leaving)
      || (s.threads[t] == EndReadRestartWrite(v) && next == EndReadRestartRead(v)))
  }

  lemma ReadRestartFacts(c: Config, s: State, t: nat, v: Word, next: Thread)
    requires Control(c, s) && AtRead(s, t, v, next)
    ensures ThreadOk(c, s.threads[t], s.committed, s.consumed, |s.produced|, |s.delivered|)
    ensures c.CanRead(v.dataSize) ==> s.read == Idle && !OtherReader(c, s.threads, t)
    ensures HoldsWrite(c, next) ==> !OtherWriter(c, s.threads, t)
    ensures !s.starting
  {
    hide Cell, CountOk;
    Alone(c, s.threads, t);
  }

  lemma RestartThreads(c: Config, s: State, t: nat, v: Word, next: Thread)
    requires Control(c, s) && (AtRead(s, t, v, next) || AtWrite(s, t, v, next))
    ensures ThreadsOk(c, s.threads[t := next], s.committed, s.consumed, |s.produced|, |s.delivered|)
  {
    assert ThreadOk(c, s.threads[t], s.committed, s.consumed, |s.produced|, |s.delivered|);
    assert ThreadOk(c, next, s.committed, s.consumed, |s.produced|, |s.delivered|);
    hide Cell, Exclusive, Live, CountOk, ThreadOk;
    MoveThreads(c, s.threads, t, next, s.committed, s.consumed, |s.produced|, |s.delivered|);
  }

  lemma ReadRestartSkips(c: Config, s: State, t: nat, v: Word, next: Thread, ok: bool)
    requires Control(c, s) && AtRead(s, t, v, next) && !c.CanRead(v.dataSize)
    ensures Directions(c, At(ReadAsync(c, s, v, ok), t, next))
  {
    hide Cell, U32, BuildBuffers, Cells, ThreadsOk, SomeWriter, SomeReader, OtherWriter, OtherReader, AtMostOneEach;
    ReadRestartFacts(c, s, t, v, next);
    MoveHolders(c, s.threads, t, next);
    MoveExclusive(c, s.threads, t, next);
  }

  lemma ReadRestartTakes(c: Config, s: State, t: nat, v: Word, next: Thread, ok: bool)
    requires Control(c, s) && AtRead(s, t, v, next) && c.CanRead(v.dataSize)
    ensures Directions(c, At(ReadAsync(c, s, v, ok), t, next))
  {
    hide Cell, U32, BuildBuffers, Cells, ThreadsOk, SomeWriter, SomeReader, OtherWriter, OtherReader, AtMostOneEach;
    ReadRestartFacts(c, s, t, v, next);
    MoveHolders(c, s.threads, t, next);
    MoveExclusive(c, s.threads, t, next);
  }

  lemma ReadRestartDirections(c: Config, s: State, t: nat, v: Word, next: Thread, ok: bool)
    requires Control(c, s) && AtRead(s, t, v, next)
    ensures Directions(c, At(ReadAsync(c, s, v, ok), t, next))
  {
    hide *;
    if c.CanRead(v.dataSize) {
      ReadRestartTakes(c, s, t, v, next, ok);
    } else {
      ReadRestartSkips(c, s, t, v, next, ok);
    }
  }

  lemma ReadAsyncData(c: Config, s: State, v: Word, ok: bool)
    requires WordOk(c, s.word, s.committed, s.consumed) && Data(c, s)
    requires c.CanRead(v.dataSize) ==> v.readOffset == Cell(c, s.consumed) && v.dataSize <= s.committed - s.consumed
    ensures Data(c, ReadAsync(c, s, v, ok))
  {
    hide Cell, BuildBuffers, Cells, MemoryOk, WriteOk, ReadOk;
    MemorySize(c, s);
    if c.CanRead(v.dataSize) {
      ReadTransfer(c, s, v);
    }
  }

  lemma MemorySize(c: Config, s: State)
    requires c.size > 0 && MemoryOk(c, s.mem, s.produced, s.delivered, s.committed, s.consumed)
    ensures |s.mem| == c.size && s.committed <= |s.produced|
  {
  }

  lemma ReadTransfer(c: Config, s: State, v: Word)
    requires WordOk(c, s.word, s.committed, s.consumed) && s.committed <= |s.produced| && c.CanRead(v.dataSize)
    requires v.readOffset == Cell(c, s.consumed) && v.dataSize <= s.committed - s.consumed
    ensures ReadOk(c, Active(Cells(c, BuildBuffers(c, v.readOffset, v.readOffset + v.dataSize)), map[]), s.produced,
                   s.committed, s.consumed)
  {
    hide Cell, BuildBuffers, Cells;
    RestartReadCells(c, v, s.committed, s.consumed);
  }

  lemma ReadRestartData(c: Config, s: State, t: nat, v: Word, next: Thread, ok: bool)
    requires Inv(c, s) && AtRead(s, t, v, next)
    ensures Data(c, At(ReadAsync(c, s, v, ok), t, next))
  {
    ReadRestartFacts(c, s, t, v, next);
    hide Cell, ThreadsOk, Exclusive, Live, CountOk, Data;
    ReadAsyncData(c, s, v, ok);
    SameData(c, ReadAsync(c, s, v, ok), t, next);
  }

  lemma SameData(c: Config, s: State, t: nat, next: Thread)
    requires c.size > 0 && Data(c, s)
    ensures Data(c, At(s, t, next))
  {
    hide MemoryOk, WriteOk, ReadOk;
  }

  lemma WriteRestartFacts(c: Config, s: State, t: nat, v: Word, next: Thread)
    requires Control(c, s) && AtWrite(s, t, v, next)
    ensures ThreadOk(c, s.threads[t], s.committed, s.consumed, |s.produced|, |s.delivered|)
    ensures c.CanWrite(v.dataSize) ==> s.write == Idle && !OtherWriter(c, s.threads, t)
    ensures HoldsRead(c, next) ==> !OtherReader(c, s.threads, t)
    ensures !s.starting
  {
    hide Cell, CountOk;
    Alone(c, s.threads, t);
  }

  lemma WriteRestartSkips(c: Config, s: State, t: nat, v: Word, next: Thread, ok: bool)
    requires Control(c, s) && AtWrite(s, t, v, next) && v.dataSize <= c.size && !c.CanWrite(v.dataSize)
    ensures Directions(c, At(WriteAsync(c, s, v, ok), t, next))
  {
    hide Cell, U32, BuildBuffers, Cells, ThreadsOk, SomeWriter, SomeReader, OtherWriter, OtherReader, AtMostOneEach;
    WriteRestartFacts(c, s, t, v, next);
    MoveHolders(c, s.threads, t, next);
    MoveExclusive(c, s.threads, t, next);
    FreeSpace(c, s.word.dataSize);
    FreeSpace(c, v.dataSize);
  }

  lemma WriteRestartTakes(c: Config, s: State, t: nat, v: Word, next: Thread, ok: bool)
    requires Control(c, s) && AtWrite(s, t, v, next) && v.dataSize <= c.size && c.CanWrite(v.dataSize)
    ensures Directions(c, At(WriteAsync(c, s, v, ok), t, next))
  {
    hide Cell, U32, BuildBuffers, Cells, ThreadsOk, SomeWriter, SomeReader, OtherWriter, OtherReader, AtMostOneEach;
    WriteRestartFacts(c, s, t, v, next);
    MoveHolders(c, s.threads, t, next);
    MoveExclusive(c, s.threads, t, next);
    FreeSpace(c, s.word.dataSize);
    FreeSpace(c, v.dataSize);
  }

  lemma WriteRestartDirections(c: Config, s: State, t: nat, v: Word, next: Thread, ok: bool)
    requires Control(c, s) && AtWrite(s, t, v, next) && v.dataSize <= c.size
    ensures Directions(c, At(WriteAsync(c, s, v, ok), t, next))
  {
    hide *;
    if c.CanWrite(v.dataSize) {
      WriteRestartTakes(c, s, t, v, next, ok);
    } else {
      WriteRestartSkips(c, s, t, v, next, ok);
    }
  }

  lemma WriteAsyncData(c: Config, s: State, v: Word, ok: bool)
    requires WordOk(c, s.word, s.committed, s.consumed) && Data(c, s)
    requires v.readOffset < c.size && v.dataSize <= c.size
    requires c.CanWrite(v.dataSize) ==> Cell(c, v.readOffset + v.dataSize) == Cell(c, s.committed)
                                        && s.committed - s.consumed <= v.dataSize
    ensures Data(c, WriteAsync(c, s, v, ok))
  {
    hide Cell, BuildBuffers, Cells, MemoryOk, ReadOk, WriteOk;
    MemorySize(c, s);
    if c.CanWrite(v.dataSize) {
      WriteTransfer(c, s, v);
    }
  }

  lemma WriteTransfer(c: Config, s: State, v: Word)
    requires WordOk(c, s.word, s.committed, s.consumed) && |s.mem| == c.size && c.CanWrite(v.dataSize)
    requires v.readOffset < c.size && s.committed - s.consumed <= v.dataSize <= c.size
    requires Cell(c, v.readOffset + v.dataSize) == Cell(c, s.committed)
    ensures WriteOk(c, Active(Cells(c, BuildBuffers(c, v.readOffset + v.dataSize, v.readOffset + c.size)), map[]),
                    s.mem, s.committed, s.consumed)
  {
    hide Cell, BuildBuffers, Cells;
    RestartWriteCells(c, v, s.committed, s.consumed);
  }

  lemma WriteRestartData(c: Config, s: State, t: nat, v: Word, next: Thread, ok: bool)
    requires Inv(c, s) && AtWrite(s, t, v, next) && v.dataSize <= c.size
    ensures Data(c, At(WriteAsync(c, s, v, ok), t, next))
  {
    WriteRestartFacts(c, s, t, v, next);
    hide Cell, ThreadsOk, Exclusive, Live, CountOk, Data;
    WriteAsyncData(c, s, v, ok);
    SameData(c, WriteAsync(c, s, v, ok), t, next);
  }

  lemma BegunKeeps(c: Config, s: State, ok: bool)
    requires Inv(c, s) && s.starting
    ensures Inv(c, Begun(c, s, ok))
  {
    RestartWriteCells(c, Word(0, 0), 0, 0);
    FreeSpace(c, 0);
    assert s.committed == 0 && s.consumed == 0;
    hide Cell, BuildBuffers, Cells, MemoryOk, ReadOk, AtMostOneEach;
  }

  // ---- Every event, every run --------------------------------------------------------

  lemma RestartedKeeps(c: Config, s: State, t: nat, ok: bool)
    requires Inv(c, s) && Can(c, s, Restart(t, ok))
    ensures Inv(c, Restarted(c, s, t, ok))
  {
    var th := s.threads[t];
    var v := th.v1;
    var next := match th
      case EndWriteRestartRead(_) => EndWriteRestartWrite(v)
      case EndReadRestartWrite(_) => EndReadRestartRead(v)
      case _ => Leaving;
    RestartThreads(c, s, t, v, next);
    if AtRead(s, t, v, next) {
      ReadRestartDirections(c, s, t, v, next, ok);
      ReadRestartData(c, s, t, v, next, ok);
    } else {
      WriteRestartDirections(c, s, t, v, next, ok);
      WriteRestartData(c, s, t, v, next, ok);
    }
    hide Cell, BuildBuffers, Cells, ThreadsOk, Exclusive, Live, CountOk, Data, WordOk;
  }

  lemma StepKeeps(c: Config, s: State, e: Event)
    requires Inv(c, s) && Can(c, s, e)
    ensures Inv(c, Step(c, s, e))
  {
    hide Inv;
    match e
    case Begin(ok) => BegunKeeps(c, s, ok);
    case Store(k, b) => StoreKeeps(c, s, k, b);
    case Fetch(k) => FetchKeeps(c, s, k);
    case WriteDone(t, n) => WriteEndedKeeps(c, s, t, n);
    case ReadDone(t, n) => ReadEndedKeeps(c, s, t, n);
    case Exchange(t) =>
      if s.threads[t].EndWriteExchange? { WriteExchangedKeeps(c, s, t); } else { ReadExchangedKeeps(c, s, t); }
    case Restart(t, ok) => RestartedKeeps(c, s, t, ok);
    case Leave(t) => LeftKeeps(c, s, t);
    case Stop => StoppedKeeps(c, s);
  }
}
