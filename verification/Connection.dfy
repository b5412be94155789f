/** The connection of a TCP endpoint or a pipe end: the rundown lock of `Lifetime` plus the
    two flag bits that serialise listening and disconnecting, over every interleaving of
    callers, requests, completions and the closing of the handle.

    Nested calls (a completion that disconnects, a receive issued from a callback) are
    further callers with their own token, so a run may contain any nesting. */
module Connection {
  import opened Words
  import opened Rundown
  import L = Lifetime

  datatype Kind = Tcp | PipeServer | PipeClient

  datatype Op = SendOp | RecvOp | TransactOp | DisconnectOp

  /** Where the owner of one successful `LockConnection` stands. */
  datatype Role =
    | Caller(op: Op)                   // in Send, Recv, Transact, Disconnect
    | Closer                           // in Close
    | Disconnecting                    // in Disconnect, after the rundown
    | DisconnectOwner                  // won flDisconectActive
    | InFlight(op: Op)                 // the request is with the kernel
    | Completing(op: Op, ok: bool)     // IOCompletionRoutine entered
    | Called(op: Op, ok: bool)         // its callback returned
    | Leaving                          // about to UnlockConnection

  /** A Listen or Connect that won flListenActive. */
  datatype Listener = Claimed | Armed | Failed | Accepted

  /** How a request was issued: no request block, refused synchronously, or queued. */
  datatype Outcome = NoRequest | Refused | Queued

  datatype State = State(
    kind: Kind, life: L.State, role: map<nat, Role>, cleared: set<nat>,
    listenFlag: bool, disconnectFlag: bool, open: bool, listeners: map<nat, Listener>)

  datatype Event =
    | Lock(t: nat, r: Role)
    | Issue(t: nat, how: Outcome)
    | RunDown(t: nat)
    | TakeDisconnect(t: nat, already: bool)
    | Complete(t: nat, ok: bool)
    | Callback(t: nat)
    | Leave(t: nat)
    | ClearDisconnect(t: nat)
    | Unlock(t: nat)
    | ClearListen(t: nat)
    | Disconnected(t: nat)             // OnDisconnect
    | Claim(l: nat)
    | Arm(l: nat, how: Outcome)
    | Accept(l: nat, ok: bool)
    | InitLock(l: nat)
    | ClearFailed(l: nat)
    | AssignClient
    | CloseHandle

  function Fresh(kind: Kind): State {
    State(kind, L.Fresh, map[], {}, false, false, true, map[])
  }

  predicate MayLock(kind: Kind, r: Role) {
    match r
    case Caller(SendOp) | Caller(RecvOp) => true
    case Caller(TransactOp) => kind != Tcp
    case Caller(DisconnectOp) => kind != PipeClient
    case Closer => true
    case _ => false
  }

  /** The roles that may execute `RunDownConnection_l`: Disconnect and Close after locking, and
      a failed pipe read or write while it still holds its token. */
  predicate MayRunDown(kind: Kind, r: Role) {
    match r
    case Caller(DisconnectOp) => true
    case Closer => true
    case Completing(SendOp, false) | Called(SendOp, false) | Completing(RecvOp, false)
        | Called(RecvOp, false) => kind != Tcp
    case _ => false
  }

  predicate Enabled(s: State, e: Event) {
    match e
    case Lock(t, r) => L.Enabled(s.life, L.Acquire(t)) && MayLock(s.kind, r)
    case Issue(t, how) => t in s.role && (how == Queued ==> s.open) &&
        ((s.role[t].Caller? && s.role[t].op != DisconnectOp) || s.role[t] == DisconnectOwner)
    case RunDown(t) => t in s.role && MayRunDown(s.kind, s.role[t])
    case TakeDisconnect(t, already) => t in s.role && s.role[t] == Disconnecting && (already ==> s.kind == Tcp)
    case Complete(t, _) => t in s.role && s.role[t].InFlight?
    case Callback(t) => t in s.role && s.role[t].Completing? && s.role[t].op != DisconnectOp
    case Leave(t) => t in s.role && (s.role[t].Completing? || s.role[t].Called?) && s.role[t].op != DisconnectOp
    case ClearDisconnect(t) => t in s.role && s.role[t].Completing? && s.role[t].op == DisconnectOp
    case Unlock(t) => t in s.role && s.role[t] == Leaving
    case ClearListen(t) => t in s.life.draining && t !in s.cleared
    case Disconnected(t) => t in s.life.draining && t in s.cleared
    case Claim(l) => l !in s.listeners && s.kind != PipeClient
    case Arm(l, how) => l in s.listeners && s.listeners[l] == Claimed && (how == Queued ==> s.open)
    case Accept(l, _) => l in s.listeners && s.listeners[l] == Armed
    case InitLock(l) => l in s.listeners && s.listeners[l] == Accepted
    case ClearFailed(l) => l in s.listeners && s.listeners[l] == Failed
    case AssignClient => s.kind == PipeClient
    case CloseHandle => s.open
  }

  function Issued(r: Role, how: Outcome): Role
    requires r.Caller? || r == DisconnectOwner
  {
    var op := if r.Caller? then r.op else DisconnectOp;
    match how
    case Queued => InFlight(op)
    case Refused => Completing(op, false)
    case NoRequest => if op == DisconnectOp then Completing(op, false) else Leaving
  }

  function Locked(s: State, t: nat, r: Role): State {
    if Active(s.life.word) then s.(life := L.Acquired(s.life, t), role := s.role[t := r]) else s
  }

  function At(s: State, t: nat, r: Role): State {
    s.(role := s.role[t := r])
  }

  function DownRole(r: Role): Role {
    match r
    case Caller(_) => Disconnecting
    case Closer => Leaving
    case _ => r
  }

  function TookDisconnect(s: State, t: nat, already: bool): State {
    if already || s.disconnectFlag then At(s, t, Leaving)
    else At(s.(disconnectFlag := true), t, DisconnectOwner)
  }

  function Unlocked(s: State, t: nat): State {
    s.(life := L.Released(s.life, t), role := s.role - {t})
  }

  function FlagClaimed(s: State, l: nat): State {
    if s.listenFlag then s else s.(listenFlag := true, listeners := s.listeners[l := Claimed])
  }

  function HandleClosed(s: State): State {
    if s.kind == Tcp then s.(open := false, listenFlag := false, disconnectFlag := false)
    else s.(open := false)
  }

  function Step(s: State, e: Event): State
    requires Enabled(s, e)
  {
    match e
    case Lock(t, r) => Locked(s, t, r)
    case Issue(t, how) => At(s, t, Issued(s.role[t], how))
    case RunDown(t) => At(s.(life := L.RanDown(s.life)), t, DownRole(s.role[t]))
    case TakeDisconnect(t, already) => TookDisconnect(s, t, already)
    case Complete(t, ok) => At(s, t, Completing(s.role[t].op, ok))
    case Callback(t) => At(s.(life := L.Called(s.life)), t, Called(s.role[t].op, s.role[t].ok))
    case Leave(t) => At(s, t, Leaving)
    case ClearDisconnect(t) => At(s.(disconnectFlag := false), t, Leaving)
    case Unlock(t) => Unlocked(s, t)
    case ClearListen(t) => s.(listenFlag := false, cleared := s.cleared + {t})
    case Disconnected(t) => s.(life := L.Finished(s.life, t), cleared := s.cleared - {t})
    case Claim(l) => FlagClaimed(s, l)
    case Arm(l, how) => s.(listeners := s.listeners[l := if how == Queued then Armed else Failed])
    case Accept(l, ok) => s.(listeners := s.listeners[l := if ok then Accepted else Failed])
    case InitLock(l) => s.(life := L.Inited(s.life), listeners := s.listeners - {l})
    case ClearFailed(l) => s.(listenFlag := false, listeners := s.listeners - {l})
    case AssignClient => s.(life := L.Inited(s.life), open := true)
    case CloseHandle => HandleClosed(s)
  }

  // ---- Invariant ---------------------------------------------------------------------

  predicate HoldsDisconnect(r: Role) {
    match r
    case DisconnectOwner => true
    case InFlight(op) => op == DisconnectOp
    case Completing(op, _) => op == DisconnectOp
    case _ => false
  }

  /** The flag bits are meaningful until closing the handle of a socket zeroes them. */
  predicate Accurate(s: State) {
    s.open || s.kind != Tcp
  }

  ghost predicate Balanced(s: State) {
    && L.Inv(s.life)
    && s.role.Keys == s.life.tokens
    && s.cleared <= s.life.draining.Keys
  }

  ghost function DisconnectHolders(role: map<nat, Role>): set<nat> {
    set t | t in role && HoldsDisconnect(role[t])
  }

  ghost function DisconnectsInFlight(role: map<nat, Role>): set<nat> {
    set t | t in role && role[t] == InFlight(DisconnectOp)
  }

  ghost predicate Single<T(!new)>(xs: set<T>) {
    forall x, y :: x in xs && y in xs ==> x == y
  }

  ghost predicate DisconnectOk(s: State) {
    && Single(DisconnectsInFlight(s.role))
    && (Accurate(s) ==>
          && Single(DisconnectHolders(s.role))
          && (s.disconnectFlag <==> DisconnectHolders(s.role) != {}))
  }

  /** Draining threads that have not yet cleared the listen flag. */
  ghost function Uncleared(s: State): set<nat> {
    s.life.draining.Keys - s.cleared
  }

  predicate MayAccept(l: Listener) {
    l == Armed || l == Accepted
  }

  ghost function MayAcceptSet(listeners: map<nat, Listener>): set<nat> {
    set l | l in listeners && MayAccept(listeners[l])
  }

  /** The listen flag, the lock word and the draining threads agree: while the flag bits are
      accurate the flag is set exactly from a claim to its failure or to the final release, and
      only one of the three things that set it exists at a time. A listener that may still be
      accepted finds the lock complete even after the handle was closed. */
  ghost predicate ListenShape(kind: Kind, accurate: bool, word: nat, listeners: map<nat, Listener>, flag: bool,
                              uncleared: set<nat>) {
    && Single(MayAcceptSet(listeners))
    && (MayAcceptSet(listeners) != {} ==> word == 0)
    && (kind == PipeClient ==> listeners.Keys == {} && !flag)
    && (accurate && kind != PipeClient ==>
          && Single(listeners.Keys) && Single(uncleared)
          && (listeners.Keys != {} ==> word == 0 && uncleared == {})
          && (word != 0 ==> uncleared == {})
          && (flag <==> listeners.Keys != {} || word != 0 || uncleared != {}))
  }

  ghost predicate ListenOk(s: State) {
    ListenShape(s.kind, Accurate(s), s.life.word, s.listeners, s.listenFlag, Uncleared(s))
  }

  ghost predicate Inv(s: State) {
    Balanced(s) && DisconnectOk(s) && ListenOk(s)
  }

  lemma FreshInv(kind: Kind)
    ensures Inv(Fresh(kind))
  {
    L.FreshInv();
  }

  /** The Lifetime event behind an event, if any. */
  function Underlying(s: State, e: Event): Option<L.Event>
    requires Enabled(s, e)
  {
    match e
    case Lock(t, _) => Some(L.Acquire(t))
    case RunDown(t) => Some(L.Rundown(t))
    case Callback(t) => Some(L.Call(t))
    case Unlock(t) => Some(L.Release(t))
    case Disconnected(t) => Some(L.Finish(t))
    case InitLock(_) => Some(L.Init)
    case AssignClient => Some(L.Init)
    case _ => None
  }

  /** Every event is one event of the lifetime protocol or leaves the lock alone. */
  lemma Refines(s: State, e: Event)
    requires Balanced(s) && Enabled(s, e)
    ensures Underlying(s, e).Some? ==>
              L.Enabled(s.life, Underlying(s, e).value) && Step(s, e).life == L.Step(s.life, Underlying(s, e).value)
    ensures Underlying(s, e).None? ==> Step(s, e).life == s.life
  {
    hide L.Inv, L.Called, L.RanDown, L.Released, L.Finished, L.Inited, Issued, DownRole, Incremented;
  }

  lemma RoleSets(role: map<nat, Role>, t: nat, r: Role)
    ensures DisconnectHolders(role[t := r]) == if HoldsDisconnect(r) then DisconnectHolders(role) + {t}
            else DisconnectHolders(role) - {t}
    ensures DisconnectsInFlight(role[t := r]) == if r == InFlight(DisconnectOp) then DisconnectsInFlight(role) + {t}
            else DisconnectsInFlight(role) - {t}
    ensures DisconnectHolders(role - {t}) == DisconnectHolders(role) - {t}
    ensures DisconnectsInFlight(role - {t}) == DisconnectsInFlight(role) - {t}
    ensures t in DisconnectHolders(role) <==> t in role && HoldsDisconnect(role[t])
    ensures t in DisconnectsInFlight(role) <==> t in role && role[t] == InFlight(DisconnectOp)
    ensures DisconnectsInFlight(role) <= DisconnectHolders(role)
  {
  }

  /** The role an event gives to the token it names. */
  function NewRole(s: State, e: Event): Option<(nat, Role)>
    requires Enabled(s, e)
  {
    match e
    case Lock(t, r) => if Active(s.life.word) then Some((t, r)) else None
    case Issue(t, how) => Some((t, Issued(s.role[t], how)))
    case RunDown(t) => Some((t, DownRole(s.role[t])))
    case TakeDisconnect(t, already) => Some((t, if already || s.disconnectFlag then Leaving else DisconnectOwner))
    case Complete(t, ok) => Some((t, Completing(s.role[t].op, ok)))
    case Callback(t) => Some((t, Called(s.role[t].op, s.role[t].ok)))
    case Leave(t) => Some((t, Leaving))
    case ClearDisconnect(t) => Some((t, Leaving))
    case _ => None
  }

  lemma RoleAfter(s: State, e: Event)
    requires Enabled(s, e)
    ensures Step(s, e).role == match NewRole(s, e) case Some(x) => s.role[x.0 := x.1]
                                                   case None => if e.Unlock? then s.role - {e.t} else s.role
  {
    hide L.Acquired, L.Called, L.RanDown, L.Released, L.Finished, L.Inited, Issued, DownRole;
  }

  lemma TokensFollow(s: State, e: Event)
    requires Balanced(s) && Enabled(s, e)
    ensures Step(s, e).role.Keys == Step(s, e).life.tokens
    ensures Step(s, e).cleared <= Step(s, e).life.draining.Keys
  {
    hide L.Inv, L.Enabled, Incremented, Decremented, BitReset, Active, Issued, DownRole;
    RoleAfter(s, e);
    var role' := Step(s, e).role;
    match e {
      case Lock(t, r) =>
        assert role'.Keys == if Active(s.life.word) then s.role.Keys + {t} else s.role.Keys;
      case Unlock(t) =>
        assert role'.Keys == s.role.Keys - {t};
      case _ =>
        hide L.Acquired, L.Released;
        assert role'.Keys == s.role.Keys;
    }
  }

  lemma BalancedKept(s: State, e: Event)
    requires Balanced(s) && Enabled(s, e)
    ensures Balanced(Step(s, e))
  {
    Refines(s, e);
    TokensFollow(s, e);
    if Underlying(s, e).Some? {
      L.StepKeeps(s.life, Underlying(s, e).value);
    }
    hide L.Inv, L.Step, Step;
  }

  /** Apart from taking and clearing the disconnect flag no event changes who holds it. */
  lemma HoldersStay(s: State, e: Event)
    requires Balanced(s) && Enabled(s, e) && !e.TakeDisconnect? && !e.ClearDisconnect?
    ensures DisconnectHolders(Step(s, e).role) == DisconnectHolders(s.role)
  {
    hide L.Inv, Step, DisconnectHolders, DisconnectsInFlight, L.Acquired, L.Called, L.RanDown, L.Released;
    hide L.Finished, L.Inited;
    RoleAfter(s, e);
    var x := NewRole(s, e);
    if x.Some? {
      RoleSets(s.role, x.value.0, x.value.1);
    } else if e.Unlock? {
      RoleSets(s.role, e.t, Leaving);
    }
  }

  /** A disconnect enters flight only from the single holder of the flag, on an open handle. */
  lemma InFlightStays(s: State, e: Event)
    requires Balanced(s) && DisconnectOk(s) && Enabled(s, e)
    ensures Single(DisconnectsInFlight(Step(s, e).role))
  {
    hide L.Inv, Step, DisconnectHolders, DisconnectsInFlight, L.Acquired, L.Called, L.RanDown, L.Released;
    hide L.Finished, L.Inited;
    RoleAfter(s, e);
    var x := NewRole(s, e);
    if x.Some? {
      RoleSets(s.role, x.value.0, x.value.1);
    } else if e.Unlock? {
      RoleSets(s.role, e.t, Leaving);
    }
  }

  lemma DisconnectKept(s: State, e: Event)
    requires Balanced(s) && DisconnectOk(s) && Enabled(s, e)
    ensures DisconnectOk(Step(s, e))
  {
    InFlightStays(s, e);
    if e.TakeDisconnect? {
      RoleSets(s.role, e.t, if e.already || s.disconnectFlag then Leaving else DisconnectOwner);
      hide L.Inv, L.Enabled, DisconnectHolders, DisconnectsInFlight;
    } else if e.ClearDisconnect? {
      RoleSets(s.role, e.t, Leaving);
      hide L.Inv, L.Enabled, DisconnectHolders, DisconnectsInFlight;
    } else {
      HoldersStay(s, e);
      hide L.Inv, L.Enabled, DisconnectHolders, DisconnectsInFlight, L.Acquired, L.Called, L.RanDown, L.Released;
      hide L.Finished, L.Inited, Issued, DownRole;
    }
  }

  lemma ListenerSets(listeners: map<nat, Listener>, l: nat, x: Listener)
    ensures MayAcceptSet(listeners[l := x]) == if MayAccept(x) then MayAcceptSet(listeners) + {l}
            else MayAcceptSet(listeners) - {l}
    ensures MayAcceptSet(listeners - {l}) == MayAcceptSet(listeners) - {l}
    ensures listeners[l := x].Keys == listeners.Keys + {l}
    ensures (listeners - {l}).Keys == listeners.Keys - {l}
    ensures MayAcceptSet(listeners) <= listeners.Keys
    ensures l in MayAcceptSet(listeners) <==> l in listeners && MayAccept(listeners[l])
  {
  }

  /** The lock stays busy while a token is held; the release that empties it starts draining. */
  lemma WordWhileHeld(s: State, t: nat)
    requires Balanced(s)
    ensures t in s.role ==> s.life.word != 0 && L.RanDown(s.life).word != 0
    ensures L.Enabled(s.life, L.Acquire(t)) && Active(s.life.word) ==> L.Acquired(s.life, t).word != 0
    ensures t in s.role ==> t !in s.life.draining
  {
    if t in s.role {
      assert t in s.life.tokens;
      assert |s.life.tokens - {t}| == |s.life.tokens| - 1;
    }
    hide L.FinalOk, L.LogOk;
  }

  lemma UnlockEvent(s: State, e: Event)
    requires Balanced(s) && Enabled(s, e) && e.Unlock?
    ensures var s' := Step(s, e);
            && s' == s.(life := s'.life, role := s'.role) && s.life.word != 0
            && Uncleared(s') == (if s'.life.word == 0 then Uncleared(s) + {e.t} else Uncleared(s))
  {
    hide L.Inv, L.WordOk, L.FinalOk, L.LogOk, MayLock, Issued, DownRole, Incremented, BitReset, MayRunDown;
    WordWhileHeld(s, e.t);
  }

  lemma LockEvents(s: State, e: Event)
    requires Balanced(s) && Enabled(s, e)
    requires e.Lock? || e.RunDown? || e.Callback? || e.Unlock?
    ensures var s' := Step(s, e);
            && s' == s.(life := s'.life, role := s'.role)
            && (s'.life.word == s.life.word || s.life.word != 0)
            && Uncleared(s') == (if e.Unlock? && s'.life.word == 0 then Uncleared(s) + {e.t} else Uncleared(s))
            && (!e.Unlock? ==> (s'.life.word == 0 <==> s.life.word == 0))
  {
    hide L.Inv, L.WordOk, L.FinalOk, L.LogOk, MayLock, Issued, DownRole, Incremented, Decremented, BitReset, MayRunDown;
    if e.Unlock? {
      UnlockEvent(s, e);
    } else {
      WordWhileHeld(s, e.t);
    }
  }

  lemma ListenKeptByTokens(s: State, e: Event)
    requires Balanced(s) && ListenOk(s) && Enabled(s, e)
    requires e.Lock? || e.RunDown? || e.Callback? || e.Unlock?
    ensures ListenOk(Step(s, e))
  {
    LockEvents(s, e);
    hide Step, Enabled, Balanced, Uncleared, MayAcceptSet;
  }

  lemma ListenKeptByDraining(s: State, e: Event)
    requires Balanced(s) && ListenOk(s) && Enabled(s, e)
    requires e.ClearListen? || e.Disconnected?
    ensures ListenOk(Step(s, e))
  {
    var s' := Step(s, e);
    assert Uncleared(s') == if e.ClearListen? then Uncleared(s) - {e.t} else Uncleared(s);
    assert e.ClearListen? ==> e.t in Uncleared(s);
    hide L.Inv, Uncleared, MayAcceptSet;
  }

  /** What an event of a listener does to the state. */
  function ListenerAfter(e: Event): Listener {
    match e
    case Claim(_) => Claimed
    case Arm(_, how) => if how == Queued then Armed else Failed
    case Accept(_, ok) => if ok then Accepted else Failed
    case _ => Failed
  }

  lemma ListenerMoves(s: State, e: Event)
    requires ListenOk(s) && Enabled(s, e) && (e.Arm? || e.Accept?)
    ensures ListenOk(Step(s, e))
  {
    var x := ListenerAfter(e);
    assert Uncleared(Step(s, e)) == Uncleared(s);
    ListenerSets(s.listeners, e.l, x);
    assert MayAccept(x) ==> e.l in MayAcceptSet(s.listeners) || Accurate(s);
    hide Uncleared, MayAcceptSet, L.Enabled, MayLock, MayRunDown;
    assert Step(s, e) == s.(listeners := s.listeners[e.l := x]);
    hide Step, Enabled, ListenerAfter;
  }

  lemma ListenerClaims(s: State, e: Event)
    requires ListenOk(s) && Enabled(s, e) && e.Claim?
    ensures ListenOk(Step(s, e))
  {
    assert Uncleared(Step(s, e)) == Uncleared(s);
    ListenerSets(s.listeners, e.l, Claimed);
    hide Uncleared, MayAcceptSet;
  }

  lemma ListenerEnds(s: State, e: Event)
    requires Balanced(s) && ListenOk(s) && Enabled(s, e) && (e.InitLock? || e.ClearFailed?)
    ensures ListenOk(Step(s, e))
  {
    assert Uncleared(Step(s, e)) == Uncleared(s);
    ListenerSets(s.listeners, e.l, Failed);
    hide L.Inv, Uncleared, MayAcceptSet;
  }

  lemma ListenUntouched(s: State, e: Event)
    requires ListenOk(s) && Enabled(s, e)
    requires e.Issue? || e.TakeDisconnect? || e.Complete? || e.Leave? || e.ClearDisconnect? || e.AssignClient?
             || e.CloseHandle?
    ensures ListenOk(Step(s, e))
  {
    var s' := Step(s, e);
    assert Uncleared(s') == Uncleared(s);
    hide Uncleared, MayAcceptSet, Issued;
  }

  lemma ListenKept(s: State, e: Event)
    requires Balanced(s) && ListenOk(s) && Enabled(s, e)
    ensures ListenOk(Step(s, e))
  {
    hide Balanced, ListenOk, Step, Enabled;
    match e
    case Lock(_, _) | RunDown(_) | Callback(_) | Unlock(_) => ListenKeptByTokens(s, e);
    case ClearListen(_) | Disconnected(_) => ListenKeptByDraining(s, e);
    case Claim(_) => ListenerClaims(s, e);
    case Arm(_, _) | Accept(_, _) => ListenerMoves(s, e);
    case InitLock(_) | ClearFailed(_) => ListenerEnds(s, e);
    case _ => ListenUntouched(s, e);
  }

  lemma StepKeeps(s: State, e: Event)
    requires Inv(s) && Enabled(s, e)
    ensures Inv(Step(s, e))
  {
    BalancedKept(s, e);
    DisconnectKept(s, e);
    ListenKept(s, e);
    hide Balanced, DisconnectOk, ListenOk, Step, Enabled;
  }

  // ---- Theorems ----------------------------------------------------------------------

  ghost function Run(kind: Kind, events: seq<Event>): (r: Option<State>)
    ensures r.Some? ==> Inv(r.value) && r.value.kind == kind
  {
    if events == [] then
      FreshInv(kind);
      Some(Fresh(kind))
    else
      var before := Run(kind, events[..|events| - 1]);
      var e := events[|events| - 1];
      if before.None? || !Enabled(before.value, e) then None
      else
        StepKeeps(before.value, e);
        SameKind(before.value, e);
        Some(Step(before.value, e))
  }

  lemma SameKind(s: State, e: Event)
    requires Enabled(s, e)
    ensures Step(s, e).kind == s.kind
  {
    hide Enabled, L.Acquired, L.Released, Issued, DownRole;
  }

  /** The lock counts exactly the requests in flight and the callers between taking the lock
      and handing it over or giving it back; every final release owes one OnDisconnect, nothing
      of an epoch follows it; at most one disconnect request is in flight. */
  ghost predicate Conserved(s: State) {
    && Holders(s.life.word) == |s.role|
    && L.NothingAfterFinal(s.life.log)
    && (s.life.draining == map[] ==> forall e :: L.Final(e) in s.life.log <==> L.Over(s.life, e))
    && Single(DisconnectsInFlight(s.role))
  }

  /** The `Init` of this event, whose result nobody looks at, opens a new epoch. */
  predicate Opens(s: State, e: Event)
    requires Enabled(s, e)
  {
    Step(s, e).life.epoch == s.life.epoch + 1 && Active(Step(s, e).life.word)
  }

  /** The unchecked `Init` of an accepted listener always finds the lock complete, so it opens a new
      epoch; that of a client pipe, whose `Assign` is guarded by no flag, does so exactly if the previous
      connection has been drained, and otherwise changes nothing in the lock. While the handle is open
      nobody can claim a listen until the previous epoch has released its last token. */
  ghost predicate ReListenSafe(s: State) {
    && (forall l :: Enabled(s, InitLock(l)) ==> s.life.word == 0 && Opens(s, InitLock(l)))
    && (Enabled(s, AssignClient) ==>
          if s.life.word == 0 then Opens(s, AssignClient) else Step(s, AssignClient).life == s.life)
    && (Accurate(s) && s.kind != PipeClient && (s.listeners != map[] || s.life.word != 0) ==>
          s.listenFlag && forall l :: Enabled(s, Claim(l)) ==> Step(s, Claim(l)) == s)
  }

  lemma InvConserved(s: State)
    requires Inv(s)
    ensures Conserved(s)
  {
    assert |s.role| == |s.role.Keys|;
    assert forall e :: L.InLog(s.life, L.Final(e)) <==> L.Final(e) in s.life.log;
    assert s.life.draining == map[] ==> forall e :: !L.Pending(s.life, e);
    hide ListenOk, DisconnectsInFlight, DisconnectHolders;
  }

  lemma AcceptedFindsComplete(s: State, l: nat)
    requires Inv(s) && Enabled(s, InitLock(l))
    ensures s.life.word == 0
  {
    assert l in MayAcceptSet(s.listeners);
  }

  lemma InitOpensEpoch(s: State, e: Event)
    requires Inv(s) && Enabled(s, e) && (e.InitLock? || e.AssignClient?)
    ensures Opens(s, e) <==> s.life.word == 0
    ensures e.InitLock? ==> s.life.word == 0
    ensures !Opens(s, e) ==> Step(s, e).life == s.life
  {
    if e.InitLock? {
      AcceptedFindsComplete(s, e.l);
    }
    hide DisconnectOk, ListenOk, L.FinalOk, L.LogOk;
  }

  lemma ListenRefused(s: State)
    requires Inv(s) && Accurate(s) && s.kind != PipeClient && (s.listeners != map[] || s.life.word != 0)
    ensures s.listenFlag
  {
    hide Balanced, DisconnectOk, MayAcceptSet, Uncleared;
    assert s.listeners != map[] ==> s.listeners.Keys != {};
  }

  lemma InvReListenSafe(s: State)
    requires Inv(s)
    ensures ReListenSafe(s)
  {
    hide Inv;
    forall l | Enabled(s, InitLock(l)) ensures s.life.word == 0 && Opens(s, InitLock(l)) {
      InitOpensEpoch(s, InitLock(l));
    }
    if Enabled(s, AssignClient) {
      InitOpensEpoch(s, AssignClient);
    }
    if Accurate(s) && s.kind != PipeClient && (s.listeners != map[] || s.life.word != 0) {
      ListenRefused(s);
    }
  }

  lemma EveryRun(kind: Kind, events: seq<Event>)
    requires Run(kind, events).Some?
    ensures Conserved(Run(kind, events).value) && ReListenSafe(Run(kind, events).value)
  {
    var s := Run(kind, events).value;
    hide *;
    InvConserved(s);
    InvReListenSafe(s);
  }
}
