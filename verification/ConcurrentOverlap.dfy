/** A slot can be stolen only between an assigning lookup and the bit that follows it. */
module ConcurrentOverlap {
  import opened Words
  import opened Bytes
  import opened Fragments
  import opened Reassembly
  import opened RoundTrip
  import opened Concurrent
  import opened ConcurrentSafe

  ghost predicate AssignsAt(ms: Messages, ss: seq<Slot>, es: seq<Event>, j: nat)
    requires MessagesOk(ms) && Shaped(ss)
  {
    j < |es| && Before(ms, ss, es, j).Some? && Assigns(ms, Before(ms, ss, es, j).value, es[j])
  }

  /** Thread es[j].a has assigned a slot and has not set its bit yet. */
  ghost predicate Unmarked(ms: Messages, ss: seq<Slot>, es: seq<Event>, j: nat, st: State)
    requires MessagesOk(ms) && Shaped(ss)
  {
    && AssignsAt(ms, ss, es, j) && es[j].Get? && es[j].a in st.at && st.at[es[j].a].phase == Looked
  }

  /** Event i assigns a slot while another thread stands between its own assigning lookup and its bit. */
  ghost predicate OverlapAt(ms: Messages, ss: seq<Slot>, es: seq<Event>, i: nat)
    requires MessagesOk(ms) && Shaped(ss)
  {
    && AssignsAt(ms, ss, es, i)
    && exists j :: 0 <= j < i && Unmarked(ms, ss, es, j, Before(ms, ss, es, i).value)
  }

  /** The first lookup of a message gives it a slot. */
  lemma NewAssigns(ms: Messages, st: State, a: Arrival, now: nat)
    requires Sound(ms, st) && Enabled(ms, st, Get(a, now)) && !Begun(st.at, a.M) && HasRoom(ms, st, Get(a, now))
    ensures Assigns(ms, st, Get(a, now)) && FirstFree(st.slots) < SLOTS
    ensures Choose(st.slots, a.M, |ms[a.M].data|, now) == (FirstFree(st.slots), true)
  {
    var M := a.M;
    assert !Opened(ms, st.at, M) && CallsFine(ms, st, M);
    forall j | 0 <= j < SLOTS ensures st.slots[j].M != M {
      assert SlotFine(ms, st, j);
      NotClosed(ms, st.at, M);
    }
    FreeHome(ms, st, M);
    assert Find(st.slots, M) == |st.slots|;
  }

  lemma NotClosed(ms: Messages, at: map<Arrival, Thread>, M: nat)
    requires MessagesOk(ms) && !Begun(at, M)
    ensures !Closed(ms, at, M)
  {
    if M in ms {
      assert 0 < FragmentCount(|ms[M].data|) && Arrival(M, 0) !in at;
    }
  }

  /** The message had a thread that assigned its slot, and that thread has come. */
  ghost predicate Assigned(ms: Messages, ss: seq<Slot>, es: seq<Event>, n: nat, at: map<Arrival, Thread>, M: nat)
    requires MessagesOk(ms) && Shaped(ss)
  {
    exists j :: 0 <= j < n && AssignsAt(ms, ss, es, j) && es[j].Get? && es[j].a.M == M && es[j].a in at
  }

  lemma SameKeys(ms: Messages, st: State, e: Event)
    requires Placed(ms, st) && Enabled(ms, st, e)
    ensures st.at.Keys <= Step(ms, st, e).at.Keys
    ensures forall a :: a in Step(ms, st, e).at && a !in st.at ==> e.Get? && a == e.a
  {
    hide Got, Filled, Put, Choose;
  }

  lemma NobodyAtFirst(ms: Messages, ss: seq<Slot>, es: seq<Event>, M: nat)
    requires MessagesOk(ms) && Shaped(ss)
    ensures Before(ms, ss, es, 0) == Some(Initial(ss)) && !Begun(Initial(ss).at, M)
  {
    assert es[..0] == [];
  }

  lemma {:induction false} BegunAssigned(ms: Messages, ss: seq<Slot>, es: seq<Event>, n: nat, M: nat)
    requires MessagesOk(ms) && Shaped(ss) && Before(ms, ss, es, |es|).Some? && n <= |es|
    requires forall i :: 0 <= i < n ==> RoomAt(ms, ss, es, i) && !StealAt(ms, ss, es, i)
    requires Before(ms, ss, es, n).Some? && Begun(Before(ms, ss, es, n).value.at, M)
    ensures Assigned(ms, ss, es, n, Before(ms, ss, es, n).value.at, M)
  {
    if n == 0 {
      NobodyAtFirst(ms, ss, es, M);
    } else {
      hide Sound, Run, Enabled, Step, HasRoom, Steals, Assigns;
      SafePrefix(ms, ss, es, n - 1);
      NextState(ms, ss, es, n - 1);
      var st, e := Before(ms, ss, es, n - 1).value, es[n - 1];
      SameKeys(ms, st, e);
      if Begun(st.at, M) {
        BegunAssigned(ms, ss, es, n - 1, M);
      } else {
        assert RoomAt(ms, ss, es, n - 1);
        NewAssigns(ms, st, e.a, e.now);
        assert AssignsAt(ms, ss, es, n - 1);
      }
    }
  }

  /** A slot that is free although a thread stands in it: no thread of its message has set its bit. */
  lemma FreeUnmarked(ms: Messages, st: State, i: nat, b: Arrival, a: Arrival)
    requires Sound(ms, st) && i < SLOTS && Free(st.slots[i]) && Inside(st, b, i)
    requires a in st.at && a.M == b.M
    ensures st.at[a].phase == Looked && Begun(st.at, b.M)
  {
    var M := st.slots[i].M;
    assert SlotFine(ms, st, i) && b.M == M && a == Arrival(M, a.N);
    assert Opened(ms, st.at, M);
    assert ArrivalOk(ms, a);
    assert !Past(st.at, M, 2)[a.N] by { assert st.slots[i].bits == NoBits(); }
  }

  /** As long as no slot has been stolen, a lookup can steal one only while another thread stands
      between its own assigning lookup and its bit. */
  lemma StealOverlaps(ms: Messages, ss: seq<Slot>, es: seq<Event>, i: nat)
    requires MessagesOk(ms) && Shaped(ss) && Before(ms, ss, es, |es|).Some? && i < |es|
    requires forall j :: 0 <= j <= i ==> RoomAt(ms, ss, es, j)
    requires forall j :: 0 <= j < i ==> !StealAt(ms, ss, es, j)
    requires StealAt(ms, ss, es, i)
    ensures OverlapAt(ms, ss, es, i)
  {
    hide *;
    SafePrefix(ms, ss, es, i);
    NextState(ms, ss, es, i);
    var st := StealState(ms, ss, es, i);
    var M := Intruded(ms, st, es[i]);
    BegunAssigned(ms, ss, es, i, M);
    var j := Intruder(ms, ss, es, i, st, M);
    Overlap(ms, ss, es, i, j, st);
  }

  lemma StealState(ms: Messages, ss: seq<Slot>, es: seq<Event>, i: nat) returns (st: State)
    requires MessagesOk(ms) && Shaped(ss) && i < |es| && StealAt(ms, ss, es, i) && RoomAt(ms, ss, es, i)
    ensures Before(ms, ss, es, i) == Some(st) && Placed(ms, st) && Steals(ms, st, es[i]) && HasRoom(ms, st, es[i])
  {
    hide Placed, Steals, HasRoom, Run;
    st := Before(ms, ss, es, i).value;
  }

  /** A lookup that steals a slot: all threads of the slot's message are before their bits. */
  lemma Intruded(ms: Messages, st: State, e: Event) returns (M: nat)
    requires Sound(ms, st) && Enabled(ms, st, e) && HasRoom(ms, st, e) && Steals(ms, st, e)
    ensures Assigns(ms, st, e) && Begun(st.at, M)
    ensures forall a :: a in st.at && a.M == M ==> st.at[a].phase == Looked
  {
    hide Sound, Enabled, HasRoom, Choose, Free, Begun, Placed;
    StolenIsFree(ms, st, e);
    var v := Choose(st.slots, e.a.M, |ms[e.a.M].data|, e.now).0;
    var b :| Inside(st, b, v);
    M := b.M;
    FreeUnmarked(ms, st, v, b, b);
    forall a | a in st.at && a.M == M ensures st.at[a].phase == Looked {
      FreeUnmarked(ms, st, v, b, a);
    }
  }

  lemma Intruder(ms: Messages, ss: seq<Slot>, es: seq<Event>, i: nat, st: State, M: nat) returns (j: nat)
    requires MessagesOk(ms) && Shaped(ss) && Assigned(ms, ss, es, i, st.at, M)
    requires forall a :: a in st.at && a.M == M ==> st.at[a].phase == Looked
    ensures j < i && Unmarked(ms, ss, es, j, st)
  {
    hide Before, Assigns;
    j :| 0 <= j < i && AssignsAt(ms, ss, es, j) && es[j].Get? && es[j].a.M == M && es[j].a in st.at;
  }

  lemma Overlap(ms: Messages, ss: seq<Slot>, es: seq<Event>, i: nat, j: nat, st: State)
    requires MessagesOk(ms) && Shaped(ss) && i < |es| && Before(ms, ss, es, i) == Some(st) && Placed(ms, st)
    requires Assigns(ms, st, es[i]) && j < i && Unmarked(ms, ss, es, j, st)
    ensures OverlapAt(ms, ss, es, i)
  {
    hide Unmarked, Assigns, Run, Placed;
  }

  lemma StolenIsFree(ms: Messages, st: State, e: Event)
    requires Sound(ms, st) && Enabled(ms, st, e) && HasRoom(ms, st, e) && Steals(ms, st, e)
    ensures var v := Choose(st.slots, e.a.M, |ms[e.a.M].data|, e.now).0; v < SLOTS && Free(st.slots[v])
  {
    if Opened(ms, st.at, e.a.M) {
      OpenedFound(ms, st, e.a.M);
    } else {
      FreeHome(ms, st, e.a.M);
    }
  }

  lemma OpenedFound(ms: Messages, st: State, M: nat)
    requires Sound(ms, st) && Opened(ms, st.at, M)
    ensures Find(st.slots, M) < |st.slots|
  {
    assert Homed(st, M);
  }

  /** So every interleaving delivers exactly in which no assigning lookup runs while another thread
      stands between its own assigning lookup and its bit. */
  lemma NoOverlapDelivers(ms: Messages, ss: seq<Slot>, es: seq<Event>, M: nat)
    requires MessagesOk(ms) && Shaped(ss) && Run(ms, Initial(ss), es).Some? && M in ms
    requires forall i :: 0 <= i < |es| ==> RoomAt(ms, ss, es, i) && !OverlapAt(ms, ss, es, i)
    ensures Exact(ms, Run(ms, Initial(ss), es).value, M)
  {
    assert es[..|es|] == es;
    hide Run, RoomAt, StealAt, OverlapAt, Exact;
    NoSteals(ms, ss, es, |es|);
    EveryInterleaving(ms, ss, es, M);
  }

  lemma {:induction false} NoSteals(ms: Messages, ss: seq<Slot>, es: seq<Event>, n: nat)
    requires MessagesOk(ms) && Shaped(ss) && Before(ms, ss, es, |es|).Some? && n <= |es|
    requires forall i :: 0 <= i < n ==> RoomAt(ms, ss, es, i) && !OverlapAt(ms, ss, es, i)
    ensures forall i :: 0 <= i < n ==> !StealAt(ms, ss, es, i)
  {
    hide Before, RoomAt, StealAt, OverlapAt;
    if n > 0 {
      NoSteals(ms, ss, es, n - 1);
      if StealAt(ms, ss, es, n - 1) {
        StealOverlaps(ms, ss, es, n - 1);
      }
    }
  }
}
