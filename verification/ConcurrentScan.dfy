/** The lookup as it is: it reads one slot after another under the lock, while other threads set and
    clear the bits it reads without it. */
module ConcurrentScan {
  import opened Words
  import opened Bytes
  import opened Reassembly
  import opened RoundTrip
  import opened Concurrent
  import opened ConcurrentSafe

  /** The thread that holds the lock: the slots it has read, and the first it has read as free. */
  datatype Scan = Scan(a: Arrival, read: nat, free: Option<nat>)

  datatype World = World(st: State, lock: Option<Scan>)

  datatype Move =
    | Enter(a: Arrival)     // a lookup takes the lock
    | Look                  // it reads a slot that names another message
    | Assign(now: nat)      // it has found its slot, or read all of them, and returns
    | Other(e: Event)       // any other thread, behind its lookup

  predicate Matched(st: State, l: Scan) {
    l.read < |st.slots| && st.slots[l.read].M == l.a.M
  }

  predicate Fits(ms: Messages, w: World) {
    && Placed(ms, w.st)
    && (w.lock.Some? ==>
          var l := w.lock.value;
          ArrivalOk(ms, l.a) && l.read <= SLOTS && (l.free.Some? ==> l.free.value < l.read))
  }

  predicate May(ms: Messages, w: World, m: Move) {
    match m
    case Enter(a) => w.lock == None && ArrivalOk(ms, a) && a !in w.st.at
    case Look => w.lock.Some? && w.lock.value.read < |w.st.slots| && !Matched(w.st, w.lock.value)
    case Assign(_) => w.lock.Some? && (Matched(w.st, w.lock.value) || w.lock.value.read == |w.st.slots|)
    case Other(e) => !e.Get? && Enabled(ms, w.st, e)
  }

  /** The slot a lookup ends with, and whether it is given to the message anew. */
  function Chosen(ms: Messages, st: State, l: Scan, now: nat): (r: (nat, bool))
    requires MessagesOk(ms) && ArrivalOk(ms, l.a) && (l.free.Some? ==> l.free.value < |st.slots|)
    ensures r.0 <= |st.slots| && (r.1 ==> r.0 < |st.slots|)
  {
    if Matched(st, l) then (if st.slots[l.read].length == |ms[l.a.M].data| then l.read else |st.slots|, false)
    else
      var i := if l.free.Some? then l.free.value else Eldest(st.slots, now, |st.slots|).1;
      (i, i < |st.slots|)
  }

  function Assigned(ms: Messages, st: State, l: Scan, now: nat): State
    requires MessagesOk(ms) && ArrivalOk(ms, l.a) && (l.free.Some? ==> l.free.value < |st.slots|)
  {
    var (i, anew) := Chosen(ms, st, l, now);
    var L := |ms[l.a.M].data|;
    State(if anew then st.slots[i := st.slots[i].(length := L, need := U32(L), M := l.a.M)] else st.slots,
          st.at[l.a := Thread(i, if i == |st.slots| then Left(Success) else Looked)], st.out)
  }

  function Looked1(st: State, l: Scan): Scan
    requires l.read < |st.slots|
  {
    Scan(l.a, l.read + 1, if l.free == None && Free(st.slots[l.read]) then Some(l.read) else l.free)
  }

  function Take(ms: Messages, w: World, m: Move): (w': World)
    requires Fits(ms, w) && May(ms, w, m)
    ensures Fits(ms, w')
  {
    match m
    case Enter(a) => w.(lock := Some(Scan(a, 0, None)))
    case Look => w.(lock := Some(Looked1(w.st, w.lock.value)))
    case Assign(now) => World(Assigned(ms, w.st, w.lock.value, now), None)
    case Other(e) => w.(st := Step(ms, w.st, e))
  }

  function Go(ms: Messages, w: World, moves: seq<Move>): (r: Option<World>)
    requires Fits(ms, w)
    ensures r.Some? ==> Fits(ms, r.value)
  {
    if moves == [] then Some(w)
    else
      var n := |moves| - 1;
      var r := Go(ms, w, moves[..n]);
      if r.Some? && May(ms, r.value, moves[n]) then Some(Take(ms, r.value, moves[n])) else None
  }

  /** The slot is free and no thread stands in it. */
  ghost predicate Idle(st: State, i: nat) {
    i < |st.slots| && Free(st.slots[i]) && forall b :: !Inside(st, b, i)
  }

  /** A lookup that begins has room; one that ends does not take a slot that is in use, by then. */
  ghost predicate Fair(ms: Messages, w: World, m: Move)
    requires Fits(ms, w) && May(ms, w, m)
  {
    match m
    case Enter(a) => |OpenSet(ms, w.st.at) + {a.M}| <= SLOTS
    case Assign(now) =>
      var (i, anew) := Chosen(ms, w.st, w.lock.value, now);
      anew ==> Idle(w.st, i)
    case _ => true
  }

  ghost predicate AllFair(ms: Messages, w: World, moves: seq<Move>)
    requires Fits(ms, w)
  {
    moves == [] ||
    var n := |moves| - 1;
    var r := Go(ms, w, moves[..n]);
    AllFair(ms, w, moves[..n]) && (r.Some? && May(ms, r.value, moves[n]) ==> Fair(ms, r.value, moves[n]))
  }

  // ---- Invariant ---------------------------------------------------------------------

  /** A lookup for a new message has read a free slot, or there is an idle one it has yet to read. */
  ghost predicate ScanOk(ms: Messages, st: State, l: Scan) {
    && ArrivalOk(ms, l.a) && l.a !in st.at && l.read <= |st.slots|
    && (forall j :: 0 <= j < l.read ==> st.slots[j].M != l.a.M)
    && (Begun(st.at, l.a.M) || l.free.Some? || exists k :: l.read <= k < SLOTS && Idle(st, k))
  }

  ghost predicate Steady(ms: Messages, w: World) {
    Fits(ms, w) && Sound(ms, w.st) && (w.lock.Some? ==> ScanOk(ms, w.st, w.lock.value))
  }

  /** A slot that names no open message is idle; so four slots not idle are four open messages. */
  lemma SomeIdle(ms: Messages, st: State, M: nat)
    requires Sound(ms, st) && !Opened(ms, st.at, M) && |OpenSet(ms, st.at) + {M}| <= SLOTS
    ensures exists k :: 0 <= k < SLOTS && Idle(st, k)
  {
    assert M !in OpenSet(ms, st.at);
    assert |OpenSet(ms, st.at) + {M}| == |OpenSet(ms, st.at)| + 1;
    hide OpenSet, CallsFine, Opened;
    if forall k :: 0 <= k < SLOTS ==> !Idle(st, k) {
      AllOpen(ms, st);
    }
  }

  lemma OpenUnlessIdle(ms: Messages, st: State, i: nat)
    requires Sound(ms, st) && i < SLOTS && !Idle(st, i)
    ensures |st.slots| == SLOTS && Opened(ms, st.at, st.slots[i].M) && MessagesOk(ms)
  {
    hide MessageOk, CallsFine, Opened, Inside;
    assert SlotFine(ms, st, i);
  }

  lemma AllOpen(ms: Messages, st: State)
    requires Sound(ms, st) && forall k :: 0 <= k < SLOTS ==> !Idle(st, k)
    ensures |OpenSet(ms, st.at)| >= 4
  {
    hide Opened, MessageOk, CallsFine, Idle, SlotFine;
    forall i | 0 <= i < SLOTS ensures st.slots[i].M in OpenSet(ms, st.at) && st.slots[i].M != NO_MESSAGE {
      assert !Idle(st, i);
      OpenUnlessIdle(ms, st, i);
      OpenNumber(ms, st.at, st.slots[i].M);
    }
    var ss := st.slots;
    var four := {ss[0].M, ss[1].M, ss[2].M, ss[3].M};
    var open := OpenSet(ms, st.at);
    hide *;
    assert |four| == 4;
    Subset(four, open);
  }

  // ---- One move ----------------------------------------------------------------------

  /** A slot in which nobody stands stays as it is while threads behind their lookups move. */
  lemma IdleStays(ms: Messages, st: State, e: Event, k: nat)
    requires Placed(ms, st) && Enabled(ms, st, e) && !e.Get? && Idle(st, k)
    ensures Idle(Step(ms, st, e), k)
  {
    hide Put, Part, Calls;
    var st' := Step(ms, st, e);
    assert !Inside(st, e.a, k);
    assert st'.slots[k] == st.slots[k];
    assert forall b :: Inside(st', b, k) ==> Inside(st, b, k);
  }

  /** Such a move begins no message and gives no slot another name. */
  lemma NamesStay(ms: Messages, st: State, e: Event)
    requires Placed(ms, st) && Enabled(ms, st, e) && !e.Get?
    ensures var st' := Step(ms, st, e);
            && st'.at.Keys == st.at.Keys && |st'.slots| == |st.slots|
            && forall j :: 0 <= j < |st.slots| ==> st'.slots[j].M == st.slots[j].M
  {
    hide Put, Part, Calls;
  }

  lemma OtherMove(ms: Messages, w: World, e: Event)
    requires Steady(ms, w) && May(ms, w, Other(e))
    ensures Steady(ms, Take(ms, w, Other(e)))
  {
    hide Sound, Step, Placed, Idle;
    assert HasRoom(ms, w.st, e) && !Steals(ms, w.st, e);
    StepInv(ms, w.st, e);
    NamesStay(ms, w.st, e);
    if w.lock.Some? {
      var l, st' := w.lock.value, Step(ms, w.st, e);
      if !(Begun(w.st.at, l.a.M) || l.free.Some?) {
        var k :| l.read <= k < SLOTS && Idle(w.st, k);
        IdleStays(ms, w.st, e, k);
      } else if Begun(w.st.at, l.a.M) {
        var n :| Arrival(l.a.M, n) in w.st.at;
        assert Arrival(l.a.M, n) in st'.at.Keys;
      }
    }
  }

  lemma EnterMove(ms: Messages, w: World, a: Arrival)
    requires Steady(ms, w) && May(ms, w, Enter(a)) && Fair(ms, w, Enter(a))
    ensures Steady(ms, Take(ms, w, Enter(a)))
  {
    hide Sound, Idle, OpenSet;
    if !Begun(w.st.at, a.M) {
      NotOpened(ms, w.st.at, a.M);
      SomeIdle(ms, w.st, a.M);
    }
  }

  lemma NotOpened(ms: Messages, at: map<Arrival, Thread>, M: nat)
    requires !Begun(at, M)
    ensures !Opened(ms, at, M)
  {
  }

  lemma LookMove(ms: Messages, w: World)
    requires Steady(ms, w) && May(ms, w, Look)
    ensures Steady(ms, Take(ms, w, Look))
  {
    hide Sound, Begun;
    var l := w.lock.value;
    if !(Begun(w.st.at, l.a.M) || l.free.Some?) {
      var k :| l.read <= k < SLOTS && Idle(w.st, k);
      assert k == l.read ==> Free(w.st.slots[l.read]);
    }
  }

  /** The lookup of an open message ends at its slot. */
  lemma FindsHome(ms: Messages, st: State, l: Scan, now: nat)
    requires Sound(ms, st) && ScanOk(ms, st, l) && Opened(ms, st.at, l.a.M) && (l.free.Some? ==> l.free.value < l.read)
    requires Matched(st, l) || l.read == |st.slots|
    ensures Matched(st, l) && l.read < SLOTS && Chosen(ms, st, l, now) == (l.read, false)
    ensures MessageOk(ms, st, l.a.M, l.read) && !Closed(ms, st.at, l.a.M)
  {
    assert Homed(st, l.a.M);
    var i :| 0 <= i < SLOTS && st.slots[i].M == l.a.M;
    assert SlotFine(ms, st, i);
    assert i == l.read;
    NotAll(ms, st.at, l.a.M, l.a.N, 6);
  }

  lemma AssignHome(ms: Messages, w: World, now: nat)
    requires Steady(ms, w) && May(ms, w, Assign(now)) && Opened(ms, w.st.at, w.lock.value.a.M)
    ensures Steady(ms, Take(ms, w, Assign(now)))
  {
    var st, l := w.st, w.lock.value;
    FindsHome(ms, st, l, now);
    hide Core, Past, Calls, Closed, Opened, SlotFine, CallsFine, Together, Shaped, Inside;
    assert st.slots[l.read := st.slots[l.read]] == st.slots;
    OnlyHome(ms, st, l.a.M, l.read);
    GotInv(ms, st, Assigned(ms, st, l, now), l.a, l.read);
  }

  lemma OnlyHome(ms: Messages, st: State, M: nat, i: nat)
    requires Sound(ms, st) && i < SLOTS && st.slots[i].M == M && Opened(ms, st.at, M)
    ensures forall j :: 0 <= j < SLOTS && j != i ==> st.slots[j].M != M
  {
    OpenNumber(ms, st.at, M);
    hide Opened, SlotFine, CallsFine;
  }

  /** The lookup of a new message reads all slots and has found a free one. */
  lemma FindsFree(ms: Messages, st: State, l: Scan, now: nat)
    requires Sound(ms, st) && ScanOk(ms, st, l) && !Opened(ms, st.at, l.a.M) && (l.free.Some? ==> l.free.value < l.read)
    requires Matched(st, l) || l.read == |st.slots|
    ensures !Begun(st.at, l.a.M) && (forall j :: 0 <= j < SLOTS ==> st.slots[j].M != l.a.M)
    ensures l.free.Some? && l.free.value < SLOTS && Chosen(ms, st, l, now) == (l.free.value, true)
  {
    NotAll(ms, st.at, l.a.M, l.a.N, 6);
    assert l.a == Arrival(l.a.M, l.a.N);
    assert !Begun(st.at, l.a.M);
    forall j | 0 <= j < SLOTS ensures st.slots[j].M != l.a.M {
      assert SlotFine(ms, st, j);
    }
  }

  lemma AssignNew(ms: Messages, w: World, now: nat)
    requires Steady(ms, w) && May(ms, w, Assign(now)) && !Opened(ms, w.st.at, w.lock.value.a.M)
    requires Fair(ms, w, Assign(now))
    ensures Steady(ms, Take(ms, w, Assign(now)))
  {
    var st, l := w.st, w.lock.value;
    FindsFree(ms, st, l, now);
    var i, M, m := l.free.value, l.a.M, ms[l.a.M];
    FreeIsIdle(ms, st, i);
    var s := st.slots[i].(length := |m.data|, need := U32(|m.data|), M := M);
    assert CallsFine(ms, st, M);
    CoreNew(ms, st, M, s);
    assert Together(st.at, M, i);
    hide Core, Past, Calls, Closed, Opened, SlotFine, CallsFine, Together, OpenSet;
    GotInv(ms, st, Assigned(ms, st, l, now), l.a, i);
  }

  // ---- Whole runs --------------------------------------------------------------------

  lemma MoveSteady(ms: Messages, w: World, m: Move)
    requires Steady(ms, w) && May(ms, w, m) && Fair(ms, w, m)
    ensures Steady(ms, Take(ms, w, m))
  {
    hide Steady, Take, Fair, Opened;
    match m
    case Enter(a) => EnterMove(ms, w, a);
    case Look => LookMove(ms, w);
    case Assign(now) =>
      if Opened(ms, w.st.at, w.lock.value.a.M) { AssignHome(ms, w, now); } else { AssignNew(ms, w, now); }
    case Other(e) => OtherMove(ms, w, e);
  }

  lemma {:induction false} RunSteady(ms: Messages, w: World, moves: seq<Move>)
    requires Fits(ms, w) && Steady(ms, w) && Go(ms, w, moves).Some? && AllFair(ms, w, moves)
    ensures Steady(ms, Go(ms, w, moves).value)
  {
    hide Steady, Take, Fair, May;
    if moves != [] {
      var n := |moves| - 1;
      RunSteady(ms, w, moves[..n]);
      MoveSteady(ms, Go(ms, w, moves[..n]).value, moves[n]);
    }
  }

  lemma Starts(ms: Messages, ss: seq<Slot>)
    requires MessagesOk(ms) && Shaped(ss)
    ensures Steady(ms, World(Initial(ss), None))
  {
    InitialInv(ms, ss);
  }

  /** Every interleaving of the lookups' reads with all other steps, in which each lookup has room when
      it begins and takes no slot that is in use when it ends, delivers exactly. */
  lemma EveryScan(ms: Messages, ss: seq<Slot>, moves: seq<Move>, M: nat)
    requires MessagesOk(ms) && Shaped(ss) && M in ms && Fits(ms, World(Initial(ss), None))
    requires Go(ms, World(Initial(ss), None), moves).Some? && AllFair(ms, World(Initial(ss), None), moves)
    ensures Exact(ms, Go(ms, World(Initial(ss), None), moves).value.st, M)
  {
    Starts(ms, ss);
    hide Exact, Go, AllFair, Sound;
    RunSteady(ms, World(Initial(ss), None), moves);
    InvExact(ms, Go(ms, World(Initial(ss), None), moves).value.st, M);
  }

  // ---- The lookup as one step --------------------------------------------------------

  function Looks(n: nat): (moves: seq<Move>)
    ensures |moves| == n
  {
    if n == 0 then [] else Looks(n - 1) + [Look]
  }

  lemma GoOn(ms: Messages, w: World, moves: seq<Move>, w1: World, m: Move)
    requires Fits(ms, w) && Go(ms, w, moves) == Some(w1) && May(ms, w1, m)
    ensures Fits(ms, w1) && Go(ms, w, moves + [m]) == Some(Take(ms, w1, m))
  {
    assert (moves + [m])[..|moves|] == moves;
  }

  function ReadSoFar(st: State, a: Arrival, n: nat): Scan {
    Scan(a, n, if FirstFree(st.slots) < n then Some(FirstFree(st.slots)) else None)
  }

  lemma {:induction false} ReadsOn(ms: Messages, st: State, a: Arrival, n: nat)
    requires Placed(ms, st) && ArrivalOk(ms, a) && a !in st.at && n <= Find(st.slots, a.M)
    ensures Fits(ms, World(st, None))
    ensures Go(ms, World(st, None), [Enter(a)] + Looks(n)) == Some(World(st, Some(ReadSoFar(st, a, n))))
    decreases n
  {
    hide Go, Find, FirstFree, Free, Placed, ArrivalOk, Take, May, Looks;
    var w := World(st, None);
    FirstMove(ms, st, a);
    LooksAre(n);
    if n == 0 {
      GoOn(ms, w, [], w, Enter(a));
    } else {
      ReadsOn(ms, st, a, n - 1);
      NextRead(ms, st, a, n - 1);
      GoOn(ms, w, [Enter(a)] + Looks(n - 1), World(st, Some(ReadSoFar(st, a, n - 1))), Look);
    }
  }

  lemma FirstMove(ms: Messages, st: State, a: Arrival)
    requires Placed(ms, st) && ArrivalOk(ms, a) && a !in st.at
    ensures Fits(ms, World(st, None)) && Go(ms, World(st, None), []) == Some(World(st, None))
    ensures May(ms, World(st, None), Enter(a))
    ensures Take(ms, World(st, None), Enter(a)) == World(st, Some(ReadSoFar(st, a, 0)))
  {
  }

  lemma LooksAre(n: nat)
    ensures if n == 0 then forall m: Move :: [] + [m] == [m] + Looks(0)
            else forall m: Move :: [m] + Looks(n - 1) + [Look] == [m] + Looks(n)
  {
  }

  lemma NextRead(ms: Messages, st: State, a: Arrival, n: nat)
    requires Placed(ms, st) && ArrivalOk(ms, a) && n < Find(st.slots, a.M)
    ensures var w := World(st, Some(ReadSoFar(st, a, n)));
            Fits(ms, w) && May(ms, w, Look) && Take(ms, w, Look) == World(st, Some(ReadSoFar(st, a, n + 1)))
  {
    ReadAt(st.slots, a.M, n);
    hide Find, FirstFree, Free, Placed, ArrivalOk;
  }

  lemma ReadAt(ss: seq<Slot>, M: nat, i: nat)
    requires i < Find(ss, M)
    ensures i < |ss| && ss[i].M != M
    ensures (i < FirstFree(ss) ==> !Free(ss[i])) && (FirstFree(ss) == i ==> Free(ss[i]))
  {
  }

  /** Not interrupted, the reads of a lookup are the one step it is elsewhere. */
  lemma UninterruptedScan(ms: Messages, st: State, a: Arrival, now: nat)
    requires Placed(ms, st) && ArrivalOk(ms, a) && a !in st.at
    ensures Fits(ms, World(st, None))
    ensures Go(ms, World(st, None), [Enter(a)] + Looks(Find(st.slots, a.M)) + [Assign(now)]) ==
            Some(World(Looking(ms, st, a, now), None))
  {
    var n := Find(st.slots, a.M);
    ReadsOn(ms, st, a, n);
    hide Go, Find, FirstFree, Free, Placed, ArrivalOk, Eldest;
    GoOn(ms, World(st, None), [Enter(a)] + Looks(n), World(st, Some(ReadSoFar(st, a, n))), Assign(now));
  }
}
