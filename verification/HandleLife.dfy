/** The handle of an I/O object beside its rundown lock. `Assign` initializes the lock and then
    stores the handle, whatever the lock said; the thread whose release drained the lock loads the
    handle, clears it and closes what it loaded. These steps interleave with those of others. */
module HandleLife {
  import opened Words
  import opened Rundown
  import opened Lifetime

  /** What the last write to the handle field was: none or a clearing; the store of the `Assign` that
      began this epoch; or that of an `Assign` whose lock was not free. */
  datatype Writer = Clear | Own(epoch: nat) | Stray

  /** A call of `Assign` between its two steps: the handle, and the epoch it began, 0 if none. */
  datatype Half = Half(h: nat, epoch: nat)

  /** `own` is the handle each epoch was begun with, `stored` the epochs whose store has happened,
      `used` all handles so far, `loads` the threads between load and close, and `closed` the calls of
      `CloseObjectHandle` with the epoch they are for. */
  datatype Object = Object(life: State, field: nat, last: Writer, half: map<nat, Half>, own: map<nat, nat>,
                           stored: set<nat>, used: set<nat>, loads: map<nat, nat>, closed: seq<(nat, nat)>)

  datatype Action =
    | Begin(t: nat, h: nat)     // the lock's `Init` in `Assign`
    | Store(t: nat)             // the store in `Assign`
    | Lock(t: nat)
    | Down(t: nat)
    | Unlock(t: nat)
    | Load(t: nat)
    | Zero(t: nat)
    | Close(t: nat)

  const New := Object(Fresh, 0, Clear, map[], map[], {}, {}, map[], [])

  /** A handle given to `Assign` is an open one, so not zero and not one given before. */
  predicate Can(s: Object, a: Action) {
    match a
    case Begin(t, h) => t !in s.half && h != 0 && h !in s.used
    case Store(t) => t in s.half
    case Lock(t) => Enabled(s.life, Acquire(t))
    case Down(t) => Enabled(s.life, Event.Rundown(t))
    case Unlock(t) => Enabled(s.life, Release(t))
    case Load(t) => t in s.life.draining && t !in s.loads
    case Zero(t) => t in s.loads
    case Close(t) => t in s.loads && t in s.life.draining
  }

  function Do(s: Object, a: Action): Object
    requires Can(s, a)
  {
    match a
    case Begin(t, h) =>
      var life := Inited(s.life);
      var e := if s.life.word == 0 then life.epoch else 0;
      s.(life := life, half := s.half[t := Half(h, e)], own := if e > 0 then s.own[e := h]
          else s.own, used := s.used + {h})
    case Store(t) =>
      var w := s.half[t];
      s.(field := w.h, last := if w.epoch > 0 then Own(w.epoch) else Stray, half := s.half - {t},
         stored := if w.epoch > 0 then s.stored + {w.epoch} else s.stored)
    case Lock(t) => s.(life := Acquired(s.life, t))
    case Down(t) => s.(life := RanDown(s.life))
    case Unlock(t) => s.(life := Released(s.life, t))
    case Load(t) => s.(loads := s.loads[t := s.field])
    case Zero(t) => s.(field := 0, last := Clear)
    case Close(t) =>
      s.(life := Finished(s.life, t), loads := s.loads - {t}, closed := s.closed + [(s.life.draining[t], s.loads[t])])
  }

  /** Each epoch began with a handle of its own. */
  ghost predicate EpochsOk(s: Object) {
    && (forall e :: e in s.own <==> 1 <= e <= s.life.epoch)
    && (forall e :: e in s.own ==> s.own[e] in s.used && s.own[e] != 0)
    && (forall e :: e in s.stored ==> e in s.own)
    && (forall e, f :: e in s.own && f in s.own && s.own[e] == s.own[f] ==> e == f)
  }

  predicate HalvesOk(s: Object) {
    && (forall t :: t in s.half ==> HalfOk(s, s.half[t]))
    && (forall t, u :: t in s.half && u in s.half && s.half[t].epoch == s.half[u].epoch > 0 ==> t == u)
  }

  ghost predicate Sound(s: Object) {
    Inv(s.life) && EpochsOk(s) && HalvesOk(s) && FieldOk(s) && s.loads.Keys <= s.life.draining.Keys
  }

  predicate HalfOk(s: Object, w: Half) {
    && w.h in s.used && w.h != 0
    && if w.epoch > 0 then w.epoch in s.own && s.own[w.epoch] == w.h && w.epoch !in s.stored
       else forall e :: e in s.own ==> s.own[e] != w.h
  }

  predicate FieldOk(s: Object) {
    match s.last
    case Clear => s.field == 0
    case Own(e) => e in s.own && s.field == s.own[e] && e in s.stored
    case Stray => s.field in s.used && forall e :: e in s.own ==> s.own[e] != s.field
  }

  lemma NewSound()
    ensures Sound(New)
  {
    FreshInv();
  }

  lemma DrainingEpoch(s: State, t: nat)
    requires Inv(s) && t in s.draining
    ensures 1 <= s.draining[t] <= s.epoch
  {
    assert Pending(s, s.draining[t]);
    assert Over(s, s.draining[t]);
  }

  lemma OpensEpochs(s: Object, t: nat, h: nat)
    requires Sound(s) && Can(s, Begin(t, h)) && s.life.word == 0
    ensures var s', e := Do(s, Begin(t, h)), s.life.epoch + 1;
            EpochsOk(s') && FieldOk(s') && e !in s.own && s'.own == s.own[e := h] && s'.half == s.half[t := Half(h, e)]
  {
    hide Inv, HalvesOk;
  }

  lemma OpensHalves(s: Object, s': Object, t: nat, h: nat, e: nat)
    requires HalvesOk(s) && t !in s.half && e > 0 && e !in s.own && e !in s.stored && h !in s.used && h != 0
    requires s'.own == s.own[e := h] && s'.half == s.half[t := Half(h, e)] && s'.stored == s.stored
    requires s'.used == s.used + {h}
    ensures HalvesOk(s')
  {
    forall u | u in s'.half ensures HalfOk(s', s'.half[u]) && (u != t ==> s'.half[u].epoch != e) {
      assert u != t ==> u in s.half && s'.half[u] == s.half[u] && HalfOk(s, s.half[u]);
    }
  }

  /** `Assign` on a completed lock begins an epoch. */
  lemma BeginOpens(s: Object, t: nat, h: nat)
    requires Sound(s) && Can(s, Begin(t, h)) && s.life.word == 0
    ensures Sound(Do(s, Begin(t, h)))
  {
    InitKeeps(s.life);
    OpensEpochs(s, t, h);
    OpensHalves(s, Do(s, Begin(t, h)), t, h, s.life.epoch + 1);
    hide Inv, HalvesOk, EpochsOk, FieldOk;
  }

  /** On any other lock it begins none, but will store its handle nevertheless. */
  lemma BeginStrays(s: Object, t: nat, h: nat)
    requires Sound(s) && Can(s, Begin(t, h)) && s.life.word != 0
    ensures Sound(Do(s, Begin(t, h)))
  {
    hide Inv;
    var s' := Do(s, Begin(t, h));
    assert s'.life == s.life && s'.own == s.own && s'.half == s.half[t := Half(h, 0)];
    forall u | u in s'.half ensures HalfOk(s', s'.half[u]) {
      assert u != t ==> u in s.half && s'.half[u] == s.half[u] && HalfOk(s, s.half[u]);
    }
  }

  lemma StoreSound(s: Object, t: nat)
    requires Sound(s) && Can(s, Store(t))
    ensures Sound(Do(s, Store(t)))
  {
    hide Inv;
    assert HalfOk(s, s.half[t]);
    var s' := Do(s, Store(t));
    forall u | u in s'.half ensures HalfOk(s', s'.half[u]) {
      assert HalfOk(s, s.half[u]) && u != t;
    }
  }

  /** The other steps touch neither the epochs nor the handles they began with. */
  lemma OtherSound(s: Object, s': Object)
    requires Sound(s) && Inv(s'.life) && s'.life.epoch == s.life.epoch && s'.loads.Keys <= s'.life.draining.Keys
    requires s' == s.(life := s'.life, field := s'.field, last := s'.last, loads := s'.loads, closed := s'.closed)
    requires (s'.field, s'.last) == (s.field, s.last) || (s'.field, s'.last) == (0, Clear)
    ensures Sound(s')
  {
    hide Inv;
    forall u | u in s'.half ensures HalfOk(s', s'.half[u]) {
      assert HalfOk(s, s.half[u]);
    }
  }

  lemma DoSound(s: Object, a: Action)
    requires Sound(s) && Can(s, a)
    ensures Sound(Do(s, a))
  {
    hide WordOk, FinalOk, LogOk, HalfOk, FieldOk;
    match a
    case Begin(t, h) => if s.life.word == 0 { BeginOpens(s, t, h); } else { BeginStrays(s, t, h); }
    case Store(t) => StoreSound(s, t);
    case Lock(t) => AcquireKeeps(s.life, t); OtherSound(s, Do(s, a));
    case Down(t) => RundownKeeps(s.life, t); OtherSound(s, Do(s, a));
    case Unlock(t) => ReleaseKeeps(s.life, t); OtherSound(s, Do(s, a));
    case Load(t) => OtherSound(s, Do(s, a));
    case Zero(t) => OtherSound(s, Do(s, a));
    case Close(t) => FinishKeeps(s.life, t); OtherSound(s, Do(s, a));
  }

  ghost function Trace(s: Object, acts: seq<Action>): (r: Option<Object>)
    requires Sound(s)
    ensures r.Some? ==> Sound(r.value)
    decreases |acts|
  {
    if acts == [] then Some(s)
    else if !Can(s, acts[0]) then None
    else
      DoSound(s, acts[0]);
      Trace(Do(s, acts[0]), acts[1..])
  }

  // ---- Which handle is closed --------------------------------------------------------

  /** The handle loaded for a drained epoch is the one the epoch began with exactly if the last write
      to the field was the store of the `Assign` that began it. */
  lemma LoadedOwnIff(s: Object, t: nat)
    requires Sound(s) && Can(s, Load(t))
    ensures var e := s.life.draining[t];
            e in s.own && (Do(s, Load(t)).loads[t] == s.own[e] <==> s.last == Own(e))
  {
    DrainingEpoch(s.life, t);
  }

  predicate Writes(a: Action) {
    a.Store? || a.Zero?
  }

  lemma {:induction false} StaysOwn(s: Object, acts: seq<Action>, e: nat)
    requires Sound(s) && Trace(s, acts).Some? && e in s.stored
    ensures var s' := Trace(s, acts).value;
            && e in s'.stored && (s.last != Own(e) ==> s'.last != Own(e))
            && (s.last == Own(e) ==> (s'.last == Own(e) <==> Untouched(acts)))
            && (e in s.own ==> e in s'.own && s'.own[e] == s.own[e])
    decreases |acts|
  {
    if acts != [] {
      var s1, rest := Do(s, acts[0]), acts[1..];
      OneStep(s, acts[0], e);
      StaysOwn(s1, rest, e);
      assert acts == [acts[0]] + rest;
      hide *;
      NoWrites(acts[0], rest);
    }
  }

  predicate Untouched(acts: seq<Action>) {
    forall i :: 0 <= i < |acts| ==> !Writes(acts[i])
  }

  lemma NoWrites(a: Action, rest: seq<Action>)
    ensures Untouched([a] + rest) <==> !Writes(a) && Untouched(rest)
  {
    hide Writes;
    var acts := [a] + rest;
    assert acts[0] == a && acts[1..] == rest;
    if Untouched(acts) {
      forall i | 0 <= i < |rest| ensures !Writes(rest[i]) {
        assert !Writes(acts[i + 1]);
      }
    }
  }

  lemma OneStep(s: Object, a: Action, e: nat)
    requires Sound(s) && Can(s, a) && e in s.stored
    ensures var s' := Do(s, a);
            && Sound(s') && e in s'.stored && (s.last != Own(e) ==> s'.last != Own(e))
            && (s.last == Own(e) ==> (s'.last == Own(e) <==> !Writes(a)))
            && (e in s.own ==> e in s'.own && s'.own[e] == s.own[e])
  {
    DoSound(s, a);
    assert a.Store? ==> HalfOk(s, s.half[a.t]);
    hide Inv, FieldOk;
  }

  /** If the field holds the epoch's own handle when the lock is drained, the handle closed is that one
      exactly if no store and no clearing falls between the drain and the load. */
  lemma BetweenIff(s: Object, acts: seq<Action>, t: nat, e: nat)
    requires Sound(s) && t in s.life.draining && s.life.draining[t] == e && s.last == Own(e)
    requires Trace(s, acts).Some? && Can(Trace(s, acts).value, Load(t)) && Trace(s, acts).value.life.draining[t] == e
    ensures e in s.own
    ensures Do(Trace(s, acts).value, Load(t)).loads[t] == s.own[e] <==> Untouched(acts)
  {
    StaysOwn(s, acts, e);
    LoadedOwnIff(Trace(s, acts).value, t);
  }

  // ---- Careful owners ----------------------------------------------------------------

  /** `Assign` is called on a completed lock only, when no other call and no final callback is in
      progress, and nobody locks the handle before it has been stored. */
  predicate Careful(s: Object, a: Action) {
    match a
    case Begin(_, _) => s.life.word == 0 && s.half == map[] && s.life.draining == map[]
    case Lock(_) => s.half == map[]
    case _ => true
  }

  ghost predicate ClosedOk(s: Object) {
    && (forall i :: 0 <= i < |s.closed| ==>
          InLog(s.life, Final(s.closed[i].0)) && s.closed[i].0 in s.own && s.closed[i].1 == s.own[s.closed[i].0])
    && (forall i, j :: 0 <= i < j < |s.closed| ==> s.closed[i].0 != s.closed[j].0)
    && (forall e :: InLog(s.life, Final(e)) ==> exists i :: 0 <= i < |s.closed| && s.closed[i].0 == e)
  }

  /** What careful owners keep: the field is the epoch's own handle from its store to the load. */
  ghost predicate Tidy(s: Object) {
    && Sound(s) && ClosedOk(s)
    && (forall t :: t in s.half ==> s.half[t].epoch == s.life.epoch)
    && (s.half != map[] ==> s.life.tokens == {} && s.life.draining == map[] && s.life.word == V_INIT)
    && (s.half == map[] && s.life.word != 0 ==> s.last == Own(s.life.epoch))
    && (forall t :: t in s.life.draining ==> s.life.word == 0 && s.life.draining[t] == s.life.epoch)
    && (forall t :: t in s.life.draining && t !in s.loads ==> s.last == Own(s.life.epoch))
    && (forall t :: t in s.loads ==> s.life.epoch in s.own && s.loads[t] == s.own[s.life.epoch])
  }

  lemma SameClosed(s: Object, s': Object)
    requires ClosedOk(s) && s'.closed == s.closed && s'.life.log == s.life.log
    requires forall e :: e in s.own ==> e in s'.own && s'.own[e] == s.own[e]
    ensures ClosedOk(s')
  {
    assert forall x :: InLog(s'.life, x) == InLog(s.life, x);
  }

  lemma TidyBegin(s: Object, t: nat, h: nat)
    requires Tidy(s) && Can(s, Begin(t, h)) && Careful(s, Begin(t, h))
    ensures Tidy(Do(s, Begin(t, h)))
  {
    var s' := Do(s, Begin(t, h));
    DoSound(s, Begin(t, h));
    OpensEpochs(s, t, h);
    SameClosed(s, s');
    TokensEmpty(s.life);
    hide ClosedOk, EpochsOk, HalvesOk, FieldOk, FinalOk, LogOk;
  }

  lemma TidyStore(s: Object, t: nat)
    requires Tidy(s) && Can(s, Store(t))
    ensures Tidy(Do(s, Store(t)))
  {
    var s' := Do(s, Store(t));
    DoSound(s, Store(t));
    SameClosed(s, s');
    OnlyHalf(s, t);
    hide ClosedOk, EpochsOk, HalvesOk, FieldOk, Inv;
    assert s'.half == map[];
  }

  lemma OnlyHalf(s: Object, t: nat)
    requires Tidy(s) && t in s.half
    ensures s.half.Keys == {t} && s.half[t].epoch == s.life.epoch > 0
  {
    hide ClosedOk, EpochsOk, FieldOk;
    assert s.life.epoch > 0;
    forall u | u in s.half ensures u == t {}
  }

  lemma TidyLife(s: Object, a: Action)
    requires Tidy(s) && Can(s, a) && Careful(s, a) && (a.Lock? || a.Down? || a.Unlock?)
    ensures Tidy(Do(s, a))
  {
    var s' := Do(s, a);
    DoSound(s, a);
    SameClosed(s, s');
    if a.Unlock? {
      DrainsOnce(s.life, a.t);
      assert |s.life.tokens - {a.t}| == |s.life.tokens| - 1;
    } else if a.Lock? && !Active(s.life.word) {
      NoAcquireAfterRundown(s.life, Acquire(a.t));
    }
    hide ClosedOk, EpochsOk, HalvesOk, FieldOk, FinalOk, LogOk;
  }

  lemma TidyLoad(s: Object, t: nat)
    requires Tidy(s) && Can(s, Load(t))
    ensures Tidy(Do(s, Load(t)))
  {
    DoSound(s, Load(t));
    SameClosed(s, Do(s, Load(t)));
    LoadedOwnIff(s, t);
    hide ClosedOk, EpochsOk, HalvesOk, FieldOk, Inv;
  }

  lemma TidyZero(s: Object, t: nat)
    requires Tidy(s) && Can(s, Zero(t))
    ensures Tidy(Do(s, Zero(t)))
  {
    DoSound(s, Zero(t));
    SameClosed(s, Do(s, Zero(t)));
    OneDrains(s, t);
    hide ClosedOk, EpochsOk, HalvesOk, FieldOk, Inv;
  }

  lemma OneDrains(s: Object, t: nat)
    requires Tidy(s) && t in s.life.draining
    ensures forall u :: u in s.life.draining ==> u == t
  {
    hide ClosedOk, EpochsOk, HalvesOk, FieldOk;
  }

  lemma TidyClose(s: Object, t: nat)
    requires Tidy(s) && Can(s, Close(t))
    ensures Tidy(Do(s, Close(t)))
  {
    var s', e := Do(s, Close(t)), s.life.draining[t];
    DoSound(s, Close(t));
    assert Pending(s.life, e) && !InLog(s.life, Final(e));
    assert forall x :: InLog(s'.life, x) <==> InLog(s.life, x) || x == Final(e);
    assert s'.closed[|s.closed|] == (e, s.loads[t]);
    forall f | InLog(s'.life, Final(f)) ensures exists i :: 0 <= i < |s'.closed| && s'.closed[i].0 == f {
      if f != e {
        var i :| 0 <= i < |s.closed| && s.closed[i].0 == f;
        assert s'.closed[i].0 == f;
      }
    }
    hide EpochsOk, HalvesOk, FieldOk, Inv;
  }

  lemma TidyStep(s: Object, a: Action)
    requires Tidy(s) && Can(s, a) && Careful(s, a)
    ensures Tidy(Do(s, a))
  {
    hide Tidy, Do, Careful;
    match a
    case Begin(t, h) => TidyBegin(s, t, h);
    case Store(t) => TidyStore(s, t);
    case Lock(_) => TidyLife(s, a);
    case Down(_) => TidyLife(s, a);
    case Unlock(_) => TidyLife(s, a);
    case Load(t) => TidyLoad(s, t);
    case Zero(t) => TidyZero(s, t);
    case Close(t) => TidyClose(s, t);
  }

  ghost predicate CarefulRun(s: Object, acts: seq<Action>)
    requires Sound(s)
    decreases |acts|
  {
    acts == [] ||
    (Can(s, acts[0]) ==> Careful(s, acts[0]) && (DoSound(s, acts[0]); CarefulRun(Do(s, acts[0]), acts[1..])))
  }

  lemma {:induction false} TidyRun(s: Object, acts: seq<Action>)
    requires Tidy(s) && Trace(s, acts).Some? && CarefulRun(s, acts)
    ensures Tidy(Trace(s, acts).value)
    decreases |acts|
  {
    if acts != [] {
      hide Do, Careful, ClosedOk, Inv, EpochsOk, HalvesOk, FieldOk;
      TidyStep(s, acts[0]);
      TidyRun(Do(s, acts[0]), acts[1..]);
    }
  }

  lemma NewTidy()
    ensures Tidy(New)
  {
    NewSound();
  }

  /** With careful owners `CloseObjectHandle` gets, for each epoch once, the handle the epoch began
      with, when nobody locks the object; and once no final callback is in progress, for exactly the
      epochs that are over. */
  lemma CarefulCloses(acts: seq<Action>)
    requires Sound(New) && Trace(New, acts).Some? && CarefulRun(New, acts)
    ensures var s := Trace(New, acts).value;
            && (forall i :: 0 <= i < |s.closed| ==> s.closed[i].0 in s.own && s.closed[i].1 == s.own[s.closed[i].0])
            && (forall i, j :: 0 <= i < j < |s.closed| ==> s.closed[i].0 != s.closed[j].0)
            && (forall t :: t in s.life.draining ==> s.life.tokens == {})
            && (s.life.draining == map[] ==>
                  forall e :: Over(s.life, e) <==> exists i :: 0 <= i < |s.closed| && s.closed[i].0 == e)
  {
    NewTidy();
    TidyRun(New, acts);
    hide Trace, CarefulRun;
    var s := Trace(New, acts).value;
    TokensEmptyIfZero(s.life);
    if s.life.draining == map[] {
      OverClosed(s);
    }
  }

  lemma TokensEmptyIfZero(s: State)
    requires Inv(s)
    ensures s.word == 0 ==> s.tokens == {}
  {
  }

  lemma OverClosed(s: Object)
    requires Sound(s) && ClosedOk(s) && s.life.draining == map[]
    ensures forall e :: Over(s.life, e) <==> exists i :: 0 <= i < |s.closed| && s.closed[i].0 == e
  {
    hide EpochsOk, HalvesOk, FieldOk, Over;
    forall e ensures Over(s.life, e) <==> exists i :: 0 <= i < |s.closed| && s.closed[i].0 == e {
      assert !Pending(s.life, e);
      assert Over(s.life, e) <==> InLog(s.life, Final(e));
    }
  }

  // ---- A handle closed while it is locked --------------------------------------------

  lemma TraceNext(s: Object, a: Action, rest: seq<Action>)
    requires Sound(s) && Can(s, a)
    ensures Sound(Do(s, a)) && Trace(s, [a] + rest) == Trace(Do(s, a), rest)
  {
    DoSound(s, a);
    assert ([a] + rest)[1..] == rest;
  }

  /** The object while its first epoch, begun with h1, is locked by thread 1; and drained by it. */
  function Locked(h1: nat): Object {
    Object(State(V_INIT + 1, {1}, map[], 1, []), h1, Own(1), map[], map[1 := h1], {1}, {h1}, map[], [])
  }

  function Drained(h1: nat): Object {
    Locked(h1).(life := State(0, {}, map[1 := 1], 1, []))
  }

  lemma AssignAndLock(h1: nat)
    requires h1 != 0
    ensures Can(New, Begin(0, h1)) && Can(Do(New, Begin(0, h1)), Store(0))
    ensures Can(Do(Do(New, Begin(0, h1)), Store(0)), Lock(1))
    ensures Do(Do(Do(New, Begin(0, h1)), Store(0)), Lock(1)) == Locked(h1)
  {
    var s1 := Object(State(V_INIT, {}, map[], 1, []), 0, Clear, map[0 := Half(h1, 1)], map[1 := h1], {}, {h1}, map[],
         []);
    assert Do(New, Begin(0, h1)) == s1;
    var s2 := s1.(field := h1, last := Own(1), half := map[], stored := {1});
    assert Do(s1, Store(0)) == s2;
    assert Acquired(s2.life, 1) == Locked(h1).life;
  }

  lemma RunDownAndDrain(h1: nat)
    ensures Can(Locked(h1), Down(1)) && Can(Do(Locked(h1), Down(1)), Unlock(1))
    ensures Do(Do(Locked(h1), Down(1)), Unlock(1)) == Drained(h1)
  {
    var s := Locked(h1).(life := State(1, {1}, map[], 1, []));
    assert Do(Locked(h1), Down(1)) == s;
    assert Released(s.life, 1) == Drained(h1).life;
  }

  lemma TraceTwo(s: Object, a: Action, b: Action, rest: seq<Action>)
    requires Sound(s) && Can(s, a) && Can(Do(s, a), b)
    ensures Sound(Do(Do(s, a), b)) && Trace(s, [a, b] + rest) == Trace(Do(Do(s, a), b), rest)
  {
    hide Do, Can, Sound, Trace;
    TraceNext(s, a, [b] + rest);
    TraceNext(Do(s, a), b, rest);
    assert [a, b] + rest == [a] + ([b] + rest);
  }

  lemma TraceThree(s: Object, a: Action, b: Action, c: Action, rest: seq<Action>)
    requires Sound(s) && Can(s, a) && Can(Do(s, a), b) && Can(Do(Do(s, a), b), c)
    ensures Sound(Do(Do(Do(s, a), b), c)) && Trace(s, [a, b, c] + rest) == Trace(Do(Do(Do(s, a), b), c), rest)
  {
    hide Do, Can, Sound, Trace;
    TraceTwo(s, a, b, [c] + rest);
    TraceNext(Do(Do(s, a), b), c, rest);
    assert [a, b, c] + rest == [a, b] + ([c] + rest);
  }

  lemma Joined(a: Action, b: Action, c: Action, rest: seq<Action>)
    ensures |rest| == 2 ==> [a, b, c] + rest == [a, b, c, rest[0], rest[1]]
    ensures |rest| == 3 ==> [a, b, c] + rest == [a, b, c, rest[0], rest[1], rest[2]]
    ensures rest + [] == rest
  {
  }

  lemma ReachDrained(h1: nat)
    requires h1 != 0
    ensures Sound(New) && Sound(Drained(h1))
    ensures Trace(New, [Begin(0, h1), Store(0), Lock(1), Down(1), Unlock(1)]) == Some(Drained(h1))
  {
    NewSound();
    AssignAndLock(h1);
    RunDownAndDrain(h1);
    var rest := [Down(1), Unlock(1)];
    hide *;
    TraceThree(New, Begin(0, h1), Store(0), Lock(1), rest);
    TraceTwo(Locked(h1), Down(1), Unlock(1), []);
    TraceEnd(Drained(h1));
    Joined(Begin(0, h1), Store(0), Lock(1), rest);
  }

  lemma TraceEnd(s: Object)
    requires Sound(s)
    ensures Trace(s, []) == Some(s)
  {
  }

  /** The second epoch, begun with h2, locked by thread 3, while thread 1 still drains the first. */
  function Reassigned(h1: nat, h2: nat): Object {
    Object(State(V_INIT + 1, {3}, map[1 := 1], 2, []), h2, Own(2), map[], map[1 := h1, 2 := h2], {1, 2}, {h1, h2},
        map[], [])
  }

  lemma AssignAgain(h1: nat, h2: nat)
    requires h2 != 0 && h1 != h2
    ensures Can(Drained(h1), Begin(2, h2)) && Can(Do(Drained(h1), Begin(2, h2)), Store(2))
    ensures Can(Do(Do(Drained(h1), Begin(2, h2)), Store(2)), Lock(3))
    ensures Do(Do(Do(Drained(h1), Begin(2, h2)), Store(2)), Lock(3)) == Reassigned(h1, h2)
  {
    var s0 := Drained(h1);
    var s1 := s0.(life := State(V_INIT, {}, map[1 := 1], 2, []), half := map[2 := Half(h2, 2)],
                  own := map[1 := h1, 2 := h2], used := {h1, h2});
    assert Do(s0, Begin(2, h2)) == s1;
    var s2 := s1.(field := h2, last := Own(2), half := map[], stored := {1, 2});
    assert Do(s1, Store(2)) == s2;
    assert Acquired(s2.life, 3) == Reassigned(h1, h2).life;
  }

  function ClosedInUse(h1: nat, h2: nat): Object {
    Reassigned(h1, h2).(life := State(V_INIT + 1, {3}, map[], 2, [Final(1)]), field := 0, last := Clear,
        closed := [(1, h2)])
  }

  lemma CloseLoaded(h1: nat, h2: nat)
    ensures var s := Reassigned(h1, h2);
            && Can(s, Load(1)) && Can(Do(s, Load(1)), Zero(1)) && Can(Do(Do(s, Load(1)), Zero(1)), Close(1))
            && Do(Do(Do(s, Load(1)), Zero(1)), Close(1)) == ClosedInUse(h1, h2)
  {
    var s := Reassigned(h1, h2);
    var s2 := s.(loads := map[1 := h2], field := 0, last := Clear);
    assert Do(Do(s, Load(1)), Zero(1)) == s2;
    assert Finished(s2.life, 1) == ClosedInUse(h1, h2).life;
    assert s2.loads - {1} == map[];
  }

  /** `Assign` gives the object a second handle between the drain and the load, and thread 3 locks it:
      the thread that drained the first epoch then closes the second handle while it is locked, and the
      first one is never closed. */
  lemma ReassignedWhileDraining(h1: nat, h2: nat)
    requires h1 != 0 && h2 != 0 && h1 != h2
    ensures Sound(Drained(h1))
    ensures Trace(Drained(h1), [Begin(2, h2), Store(2), Lock(3), Load(1), Zero(1), Close(1)])
            == Some(ClosedInUse(h1, h2))
    ensures var s := ClosedInUse(h1, h2);
            && s.closed == [(1, h2)] && s.own == map[1 := h1, 2 := h2]
            && s.life.epoch == 2 && Active(s.life.word) && s.life.tokens == {3}
  {
    ReachDrained(h1);
    AssignAgain(h1, h2);
    CloseLoaded(h1, h2);
    var rest := [Load(1), Zero(1), Close(1)];
    hide Do, Can, Trace, Sound, Drained, Reassigned;
    TraceThree(Drained(h1), Begin(2, h2), Store(2), Lock(3), rest);
    TraceThree(Reassigned(h1, h2), Load(1), Zero(1), Close(1), []);
    TraceEnd(ClosedInUse(h1, h2));
    Joined(Begin(2, h2), Store(2), Lock(3), rest);
    ClosedWhat(h1, h2);
  }

  lemma ClosedWhat(h1: nat, h2: nat)
    ensures var s := ClosedInUse(h1, h2);
            && s.closed == [(1, h2)] && s.own == map[1 := h1, 2 := h2]
            && s.life.epoch == 2 && Active(s.life.word) && s.life.tokens == {3}
  {
  }
}
