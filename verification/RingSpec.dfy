/** The asynchronous ring buffer as a state machine.

    The only shared state of the original is one 64-bit word (read offset, data size)
    changed by compare-exchange, and an I/O counter. Completion callbacks run on any
    thread; each is a chain of atomic actions: compare-exchange attempts, then the
    restarts of the two directions computed from the *snapshot* the successful exchange
    left in local variables, then one decrement of the counter. Every such action is an
    event here, so a run of events is an interleaving of arbitrarily many callbacks. */
module RingSpec {
  import opened Words

  datatype Config = Config(size: nat, minRead: nat, minWrite: nat, adjacent: bool) {
    /** What `Start` checks, with both minimum sizes at least one byte. */
    predicate Valid() {
      1 <= minRead && 1 <= minWrite && size <= 0x8000_0000 && minRead + minWrite <= size + 1
    }

    predicate CanRead(dataSize: nat) {
      dataSize >= minRead
    }

    predicate CanWrite(dataSize: nat) {
      U32(size - dataSize) >= minWrite
    }
  }

  /** A scatter/gather entry: an offset from the base address and a length. */
  datatype WsaBuf = WsaBuf(offset: nat, length: nat)

  function BuildBuffers(c: Config, from: nat, to: nat): seq<WsaBuf>
    requires c.size > 0 && from <= to
  {
    if c.adjacent then [WsaBuf(from % c.size, to - from)]
    else
      var f, t := from % c.size, to % c.size;
      if f < t then [WsaBuf(f, t - f)]
      else if t != 0 then [WsaBuf(f, c.size - f), WsaBuf(0, t)]
      else [WsaBuf(f, c.size - f)]
  }

  /** The cell of the ring behind a byte offset. In the adjacent layout the same memory is
      mapped twice, so offsets at or above the size fold back. */
  function Cell(c: Config, p: nat): (r: nat)
    requires c.size > 0
    ensures r < c.size
  {
    p % c.size
  }

  /** The cells a scatter/gather list names, in transfer order. */
  function Cells(c: Config, wb: seq<WsaBuf>): seq<nat>
    requires c.size > 0
  {
    if wb == [] then []
    else seq<nat>(wb[0].length, k requires 0 <= k => Cell(c, wb[0].offset + k)) + Cells(c, wb[1..])
  }

  /** The cells of the logical interval [from, to), in order. */
  function Interval(c: Config, from: nat, to: nat): seq<nat>
    requires c.size > 0 && from <= to
  {
    seq<nat>(to - from, k requires 0 <= k => Cell(c, from + k))
  }

  datatype Word = Word(readOffset: nat, dataSize: nat)

  /** One direction: no operation, or an outstanding one that moves bytes between the
      device and the listed cells, in any order and at any time before it completes. */
  datatype Transfer = Idle | Active(cells: seq<nat>, moved: map<nat, Byte>)

  /** Where a completion callback stands. */
  datatype Thread =
    | EndWriteExchange(n: nat, v0: Word)
    | EndReadExchange(n: nat, v0: Word)
    | EndWriteRestartRead(v1: Word)
    | EndWriteRestartWrite(v1: Word)
    | EndReadRestartWrite(v1: Word)
    | EndReadRestartRead(v1: Word)
    | Leaving

  /** `produced`, `delivered`, `committed`, `consumed` are histories: the bytes producers
      reported, the bytes readers were handed, and the totals the word accounts for. */
  datatype State = State(
    word: Word, mem: seq<Byte>, write: Transfer, read: Transfer,
    writeEnded: bool, readEnded: bool, starting: bool, threads: map<nat, Thread>,
    ioCount: int, stopped: bool, ioStops: nat,
    produced: seq<Byte>, delivered: seq<Byte>, committed: nat, consumed: nat)

  datatype Event =
    | Begin(ok: bool)                 // the WriteAsync(0, 0) of Start
    | Store(k: nat, b: Byte)          // the producing device stores byte k of its operation
    | Fetch(k: nat)                   // the consuming device loads byte k of its operation
    | WriteDone(t: nat, n: nat)       // EndWrite(n) is called on thread t and loads the word
    | ReadDone(t: nat, n: nat)        // EndRead(n) is called on thread t and loads the word
    | Exchange(t: nat)                // one compare-exchange attempt of thread t
    | Restart(t: nat, ok: bool)       // the next ReadAsync/WriteAsync of thread t
    | Leave(t: nat)                   // the final EndIo of thread t
    | Stop

  function Start(c: Config, mem: seq<Byte>): State {
    State(Word(0, 0), mem, Idle, Idle, false, false, true, map[], 1, false, 0, [], [], 0, 0)
  }

  predicate Completes(x: Transfer, n: nat) {
    x.Active? && n <= |x.cells| && forall k :: 0 <= k < n ==> k in x.moved
  }

  predicate Enabled(s: State, e: Event) {
    match e
    case Begin(_) => s.starting
    case Store(k, _) => s.write.Active? && k < |s.write.cells| && s.write.cells[k] < |s.mem|
    case Fetch(k) => s.read.Active? && k < |s.read.cells| && s.read.cells[k] < |s.mem|
    case WriteDone(t, n) => t !in s.threads && Completes(s.write, n)
    case ReadDone(t, n) => t !in s.threads && Completes(s.read, n)
    case Exchange(t) => t in s.threads && (s.threads[t].EndWriteExchange? || s.threads[t].EndReadExchange?)
    case Restart(t, _) => t in s.threads && (
        s.threads[t].EndWriteRestartRead? || s.threads[t].EndWriteRestartWrite? ||
        s.threads[t].EndReadRestartWrite? || s.threads[t].EndReadRestartRead?)
    case Leave(t) => t in s.threads && s.threads[t].Leaving?
    case Stop => !s.starting && !s.stopped
  }

  function Reported(x: Transfer, n: nat): (r: seq<Byte>)
    requires Completes(x, n)
    ensures |r| == n
  {
    seq(n, k requires 0 <= k < n => x.moved[k])
  }

  /** `ReadAsync`: the operation starts only when the *snapshot* has enough data. A failed
      start is a synchronous zero-byte completion. */
  function ReadAsync(c: Config, s: State, v: Word, ok: bool): State
    requires c.size > 0
  {
    if !c.CanRead(v.dataSize) then s
    else if ok then
      s.(read := Active(Cells(c, BuildBuffers(c, v.readOffset, v.readOffset + v.dataSize)), map[]),
         ioCount := s.ioCount + 1)
    else s.(readEnded := true)
  }

  function WriteAsync(c: Config, s: State, v: Word, ok: bool): State
    requires c.size > 0 && v.dataSize <= c.size
  {
    if !c.CanWrite(v.dataSize) then s
    else if ok then
      s.(write := Active(Cells(c, BuildBuffers(c, v.readOffset + v.dataSize, v.readOffset + c.size)), map[]),
         ioCount := s.ioCount + 1)
    else s.(writeEnded := true)
  }

  function EndIo(s: State): State {
    s.(ioCount := s.ioCount - 1, ioStops := if s.ioCount == 1 then s.ioStops + 1 else s.ioStops)
  }

  function At(s: State, t: nat, pc: Thread): State {
    s.(threads := s.threads[t := pc])
  }

  predicate Running(s: State, t: nat) {
    t in s.threads
  }

  function Begun(c: Config, s: State, ok: bool): State
    requires c.size > 0
  {
    WriteAsync(c, s.(starting := false), Word(0, 0), ok)
  }

  function Stored(s: State, k: nat, b: Byte): State
    requires s.write.Active? && k < |s.write.cells| && s.write.cells[k] < |s.mem|
  {
    s.(mem := s.mem[s.write.cells[k] := b], write := s.write.(moved := s.write.moved[k := b]))
  }

  function Fetched(s: State, k: nat): State
    requires s.read.Active? && k < |s.read.cells| && s.read.cells[k] < |s.mem|
  {
    s.(read := s.read.(moved := s.read.moved[k := s.mem[s.read.cells[k]]]))
  }

  function WriteEnded(s: State, t: nat, n: nat): State
    requires Completes(s.write, n)
  {
    if n == 0 then At(s.(write := Idle, writeEnded := true), t, Leaving)
    else At(s.(write := Idle, produced := s.produced + Reported(s.write, n)), t, EndWriteExchange(n, s.word))
  }

  function ReadEnded(s: State, t: nat, n: nat): State
    requires Completes(s.read, n)
  {
    if n == 0 then At(s.(read := Idle, readEnded := true), t, Leaving)
    else At(s.(read := Idle, delivered := s.delivered + Reported(s.read, n)), t, EndReadExchange(n, s.word))
  }

  /** One attempt of the loop of `EndWrite`: succeeds when the word still is the loaded one. */
  function WriteExchanged(c: Config, s: State, t: nat): State
    requires Running(s, t) && s.threads[t].EndWriteExchange?
  {
    var EndWriteExchange(n, v0) := s.threads[t];
    if s.word != v0 then At(s, t, EndWriteExchange(n, s.word))
    else
      var v1 := Word(v0.readOffset, U32(v0.dataSize + n));
      At(s.(word := v1, committed := s.committed + n), t,
         if c.CanRead(v0.dataSize) then EndWriteRestartWrite(v1) else EndWriteRestartRead(v1))
  }

  /** One attempt of the loop of `EndRead`. */
  function ReadExchanged(c: Config, s: State, t: nat): State
    requires c.size > 0 && Running(s, t) && s.threads[t].EndReadExchange?
  {
    var EndReadExchange(n, v0) := s.threads[t];
    if s.word != v0 then At(s, t, EndReadExchange(n, s.word))
    else
      var v1 := Word(Cell(c, U32(v0.readOffset + n)), U32(v0.dataSize - n));
      At(s.(word := v1, consumed := s.consumed + n), t,
         if c.CanWrite(v0.dataSize) then EndReadRestartRead(v1) else EndReadRestartWrite(v1))
  }

  function Restarted(c: Config, s: State, t: nat, ok: bool): State
    requires c.size > 0 && Enabled(s, Restart(t, ok)) && s.threads[t].v1.dataSize <= c.size
  {
    match s.threads[t]
    case EndWriteRestartRead(v) => At(ReadAsync(c, s, v, ok), t, EndWriteRestartWrite(v))
    case EndWriteRestartWrite(v) => At(WriteAsync(c, s, v, ok), t, Leaving)
    case EndReadRestartWrite(v) => At(WriteAsync(c, s, v, ok), t, EndReadRestartRead(v))
    case EndReadRestartRead(v) => At(ReadAsync(c, s, v, ok), t, Leaving)
  }

  function Left(s: State, t: nat): State {
    EndIo(s.(threads := s.threads - {t}))
  }

  function Stopped(s: State): State {
    EndIo(s.(stopped := true))
  }

  function Step(c: Config, s: State, e: Event): State
    requires c.size > 0 && Enabled(s, e)
    requires e.Restart? ==> s.threads[e.t].v1.dataSize <= c.size
  {
    match e
    case Begin(ok) => Begun(c, s, ok)
    case Store(k, b) => Stored(s, k, b)
    case Fetch(k) => Fetched(s, k)
    case WriteDone(t, n) => WriteEnded(s, t, n)
    case ReadDone(t, n) => ReadEnded(s, t, n)
    case Exchange(t) => if s.threads[t].EndWriteExchange? then WriteExchanged(c, s, t) else ReadExchanged(c, s, t)
    case Restart(t, ok) => Restarted(c, s, t, ok)
    case Leave(t) => Left(s, t)
    case Stop => Stopped(s)
  }
}
