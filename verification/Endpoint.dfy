/** The connection members of `CTcpEndpoint` and `CPipeEnd` while other threads run. A token is one
    successful `LockConnection`; every path of a member either gives its token back once or hands it to
    a request, whose completion gives it back. `trace` holds the events of all threads so far, and a
    contract says which events of its own token a member adds, in order. */
module Endpoint {
  import opened Words
  import opened Rundown
  import opened Connection
  import L = Lifetime

  /** Whose event it is. */
  datatype Id = Token(t: nat) | Listening(l: nat) | Nobody

  function By(e: Event): Id {
    match e
    case Lock(t, _) => Token(t)
    case Issue(t, _) => Token(t)
    case RunDown(t) => Token(t)
    case TakeDisconnect(t, _) => Token(t)
    case Complete(t, _) => Token(t)
    case Callback(t) => Token(t)
    case Leave(t) => Token(t)
    case ClearDisconnect(t) => Token(t)
    case Unlock(t) => Token(t)
    case ClearListen(t) => Token(t)
    case Disconnected(t) => Token(t)
    case Claim(l) => Listening(l)
    case Arm(l, _) => Listening(l)
    case Accept(l, _) => Listening(l)
    case InitLock(l) => Listening(l)
    case ClearFailed(l) => Listening(l)
    case AssignClient => Nobody
    case CloseHandle => Nobody
  }

  function Mine(trace: seq<Event>, id: Id): seq<Event> {
    if trace == [] then []
    else Mine(trace[..|trace| - 1], id) + if By(trace[|trace| - 1]) == id then [trace[|trace| - 1]] else []
  }

  lemma MineNext(trace: seq<Event>, e: Event, id: Id)
    ensures Mine(trace + [e], id) == if By(e) == id then Mine(trace, id) + [e] else Mine(trace, id)
  {
    assert (trace + [e])[..|trace|] == trace;
  }

  lemma RunNext(kind: Kind, trace: seq<Event>, s: State, e: Event)
    requires Run(kind, trace) == Some(s) && Enabled(s, e)
    ensures Run(kind, trace + [e]) == Some(Step(s, e)) && Inv(Step(s, e))
  {
    assert (trace + [e])[..|trace|] == trace;
    hide Inv, Step, Enabled;
  }

  /** Token t, or its absence, is as before. */
  predicate SameToken(t: nat, s: State, s': State) {
    && (t in s'.role <==> t in s.role) && (t in s.role ==> s'.role[t] == s.role[t])
    && (t in s'.life.tokens <==> t in s.life.tokens) && (t in s'.life.draining <==> t in s.life.draining)
    && (t in s.life.draining ==> s'.life.draining[t] == s.life.draining[t]) && (t in s'.cleared <==> t in s.cleared)
  }

  predicate SameListener(l: nat, s: State, s': State) {
    (l in s'.listeners <==> l in s.listeners) && (l in s.listeners ==> s'.listeners[l] == s.listeners[l])
  }

  predicate Same(id: Id, s: State, s': State) {
    match id
    case Token(t) => SameToken(t, s, s')
    case Listening(l) => SameListener(l, s, s')
    case Nobody => true
  }

  /** What a thread can count on while others run: the tokens and listeners that are its own, taken or
      yet to be taken, are as it left them; a handle that is gone comes back at a pipe client only. */
  ghost predicate Kept(own: set<Id>, s: State, trace: seq<Event>, s': State, trace': seq<Event>) {
    && s'.kind == s.kind && trace <= trace' && (s'.open ==> s.open || s.kind == PipeClient)
    && forall id :: id in own ==> Same(id, s, s') && Mine(trace', id) == Mine(trace, id)
  }

  lemma SameLife(t: nat, s: State, e: Event)
    requires Enabled(s, e) && By(e) != Token(t)
    ensures var l, l' := s.life, Step(s, e).life;
            && (t in l'.tokens <==> t in l.tokens) && (t in l'.draining <==> t in l.draining)
            && (t in l.draining ==> l'.draining[t] == l.draining[t])
  {
    hide Incremented, Decremented, BitReset, Active, Issued, DownRole;
    match e
    case Lock(_, _) => hide L.Released, L.Finished;
    case Unlock(_) => hide L.Acquired, L.Finished;
    case Disconnected(_) => hide L.Acquired, L.Released;
    case _ => hide L.Acquired, L.Released, L.Finished;
  }

  lemma SameCleared(t: nat, s: State, e: Event)
    requires Enabled(s, e) && By(e) != Token(t)
    ensures t in Step(s, e).cleared <==> t in s.cleared
  {
    hide Active, Issued, DownRole, L.Acquired, L.Released, L.Finished, L.RanDown, L.Called, L.Inited;
  }

  lemma SameRole(t: nat, s: State, e: Event)
    requires Enabled(s, e) && By(e) != Token(t)
    ensures var s' := Step(s, e); (t in s'.role <==> t in s.role) && (t in s.role ==> s'.role[t] == s.role[t])
  {
    RoleAfter(s, e);
    hide Step, Issued, DownRole, Active;
  }

  lemma SameListeners(l: nat, s: State, e: Event)
    requires Enabled(s, e) && By(e) != Listening(l)
    ensures SameListener(l, s, Step(s, e))
  {
    hide Issued, DownRole, Active, L.Acquired, L.Released, L.Finished, L.RanDown, L.Called, L.Inited;
  }

  lemma SameStep(id: Id, s: State, e: Event)
    requires Enabled(s, e) && By(e) != id
    ensures Same(id, s, Step(s, e))
  {
    hide Step, Enabled;
    match id
    case Token(t) =>
      SameLife(t, s, e);
      SameRole(t, s, e);
      SameCleared(t, s, e);
    case Listening(l) => SameListeners(l, s, e);
    case Nobody =>
  }

  /** Every step of another thread grants it. */
  lemma KeptStep(own: set<Id>, s: State, trace: seq<Event>, e: Event)
    requires Enabled(s, e) && By(e) !in own
    ensures Kept(own, s, trace, Step(s, e), trace + [e])
  {
    SameKind(s, e);
    hide Step, Enabled, Same;
    forall id | id in own ensures Same(id, s, Step(s, e)) && Mine(trace + [e], id) == Mine(trace, id) {
      SameStep(id, s, e);
      MineNext(trace, e, id);
    }
  }

  /** What is kept while others run, id included, and then while id moves. */
  lemma KeptThen(held: set<Id>, id: Id, s: State, trace: seq<Event>, s': State, trace': seq<Event>,
                 s'': State, trace'': seq<Event>)
    requires Kept(held + {id}, s, trace, s', trace') && Kept(held, s', trace', s'', trace'')
    ensures Kept(held, s, trace, s'', trace'')
  {
    forall x | x in held ensures Same(x, s, s'') && Mine(trace'', x) == Mine(trace, x) {
      assert x in held + {id} && Same(x, s, s') && Same(x, s', s'');
    }
    hide Mine;
  }

  ghost predicate Reached(kind: Kind, trace: seq<Event>, s: State, ids: set<nat>) {
    Run(kind, trace) == Some(s) && s.kind == kind && Inv(s) && s.life.tokens <= ids && |ids| < V_INIT
  }

  predicate Coupled(s: State, word: nat, listen: bool, disconnect: bool, open: bool) {
    word == s.life.word && listen == s.listenFlag && disconnect == s.disconnectFlag && open == s.open
  }

  /** A token id not in use. */
  predicate Unused(s: State, t: nat) {
    t !in s.role && t !in s.life.tokens && t !in s.life.draining && t !in s.cleared
  }

  /** Token t has this role. */
  predicate Stands(s: State, t: nat, r: Role) {
    t in s.role && s.role[t] == r
  }

  predicate MayIssue(r: Role) {
    (r.Caller? && r.op != DisconnectOp) || r == DisconnectOwner
  }

  /** The way out of a token: the last holder of a connection that was run down frees the listen flag and
      calls `OnDisconnect`. */
  function Out(t: nat, last: bool): seq<Event> {
    [Unlock(t)] + if last then [ClearListen(t), Disconnected(t)] else []
  }

  /** What the system reports for a request: `dwError` of a socket, `status` of a pipe. */
  datatype Code =
    | NoError
    | InvalidHandle | NotConnected | SocketAborted | SocketReset | SocketDisconnecting | ConnectionAborted
    | Cancelled | PipeBroken | PipeClosing | PipeDisconnected
    | Failure      // any other error
    | Notice       // not `STATUS_SUCCESS`, but not an error either

  /** What the system makes of a request: there is no request block, it is refused with an error, or taken,
      which needs a handle. */
  datatype System = NoBlock | Refuses(code: Code) | Takes

  /** What a completion or the answer of a callback leads to. */
  datatype Follow = Nothing | Receives | Disconnects(already: bool) | Closes

  class ConnectionObject {
    const kind: Kind
    /** `m_connectionLock`, `m_flags`, and whether there is a handle. */
    var connectionLock: nat
    var listenActive: bool
    var disconnectActive: bool
    var handleOpen: bool
    ghost const ids: set<nat>
    ghost var s: State
    ghost var trace: seq<Event>
    /** How often this thread has called `IO_OBJECT::Close`. */
    ghost var closes: nat

    ghost predicate Valid()
      reads this
    {
      Reached(kind, trace, s, ids) && Coupled(s, connectionLock, listenActive, disconnectActive, handleOpen)
    }

    constructor (kind: Kind, ghost ids: set<nat>)
      requires |ids| < V_INIT
      ensures Valid() && s == Fresh(kind) && trace == [] && this.kind == kind && this.ids == ids
    {
      this.kind, this.ids := kind, ids;
      connectionLock, listenActive, disconnectActive, handleOpen := 0, false, false, true;
      s, trace, closes := Fresh(kind), [], 0;
      new;
      FreshInv(kind);
    }

    lemma HandleIs()
      requires Valid()
      ensures handleOpen == s.open && s.kind == kind
    {
    }

    /** Any number of steps of other threads. */
    method Others(ghost own: set<Id>)
      requires Valid()
      modifies this
      ensures Valid() && Kept(own, old(s), old(trace), s, trace) && closes == old(closes)
    {
    }

    ghost method Did(e: Event)
      requires Reached(kind, trace, s, ids) && Enabled(s, e) && Step(s, e).life.tokens <= ids
      modifies this`s, this`trace
      ensures s == Step(old(s), e) && trace == old(trace) + [e] && Reached(kind, trace, s, ids)
      ensures Mine(trace, By(e)) == old(Mine(trace, By(e))) + [e]
      ensures forall own: set<Id> :: By(e) !in own ==> Kept(own, old(s), old(trace), s, trace)
    {
      RunNext(kind, trace, s, e);
      SameKind(s, e);
      MineNext(trace, e, By(e));
      hide Run, Inv, Step, Enabled, Kept, Mine;
      forall own: set<Id> | By(e) !in own ensures Kept(own, s, trace, Step(s, e), trace + [e]) {
        KeptStep(own, s, trace, e);
      }
      s, trace := Step(s, e), trace + [e];
    }

    /** One step of this thread, after others have run. */
    ghost method Then(e: Event, held: set<Id>, s0: State, trace0: seq<Event>)
      requires Reached(kind, trace, s, ids) && Enabled(s, e) && Step(s, e).life.tokens <= ids
      requires Kept(held + {By(e)}, s0, trace0, s, trace) && By(e) !in held
      modifies this`s, this`trace
      ensures s == Step(old(s), e) && Reached(kind, trace, s, ids) && Kept(held, s0, trace0, s, trace)
      ensures Mine(trace, By(e)) == Mine(trace0, By(e)) + [e]
    {
      ghost var s1, trace1 := s, trace;
      KeptMine(held, By(e), s0, s, trace0, trace);
      hide Reached, Kept, Mine, Enabled, Step;
      Did(e);
      KeptThen(held, By(e), s0, trace0, s1, trace1, s, trace);
    }

    /** `LockConnection`: one step of the lock, as `RundownProtection.Acquire` is. */
    method LockConnection(ghost t: nat, ghost r: Role, ghost held: set<Id>) returns (ok: bool)
      requires Valid() && t in ids && Unused(s, t) && MayLock(kind, r) && Token(t) !in held
      modifies this
      ensures Valid() && Kept(held, old(s), old(trace), s, trace) && closes == old(closes)
      ensures Mine(trace, Token(t)) == old(Mine(trace, Token(t))) + [Lock(t, r)]
      ensures if ok then Stands(s, t, r) else Unused(s, t)
    {
      hide Reached, Mine, Kept, MayLock, Unused, Enabled, Step, Incremented, Stands;
      Others(held + {Token(t)});
      StaysUnused(held, t, old(s), s, old(trace), trace);
      LockIs(kind, trace, s, ids, t, r);
      ok := V_INIT <= connectionLock;
      if ok {
        connectionLock := Incremented(connectionLock);
      }
      Then(Lock(t, r), held, old(s), old(trace));
    }

    /** Everything from the allocation of the request block to `CheckErrorCode`. Without a handle the request
        is refused as such. */
    method Issue(ghost t: nat, ghost r: Role, sys: System, ghost held: set<Id>) returns (how: Outcome, code: Code)
      requires Valid() && Stands(s, t, r) && MayIssue(r) && Token(t) !in held
      modifies this
      ensures Valid() && Kept(held, old(s), old(trace), s, trace) && closes == old(closes)
      ensures Mine(trace, Token(t)) == old(Mine(trace, Token(t))) + [Event.Issue(t, how)]
      ensures Stands(s, t, Issued(r, how))
      ensures sys == NoBlock ==> how == NoRequest
      ensures sys != NoBlock && !handleOpen ==> how == Refused && code == InvalidHandle
      ensures sys == Takes && handleOpen ==> how == Queued
      ensures sys.Refuses? && handleOpen ==> how == Refused && code == sys.code
    {
      hide Reached, Mine, Kept, Enabled, Step, Stands, Issued;
      Others(held + {Token(t)});
      StaysThere(held, t, r, old(s), s, old(trace), trace);
      code := InvalidHandle;
      match sys {
        case NoBlock => how := NoRequest;
        case Refuses(c) =>
          how := Refused;
          if handleOpen {
            code := c;
          }
        case Takes => how := if handleOpen then Queued else Refused;
      }
      IssueIs(kind, trace, s, ids, t, r, how);
      Then(Event.Issue(t, how), held, old(s), old(trace));
    }

    /** `RunDownConnection_l`. */
    method RunDownConnection(ghost t: nat, ghost r: Role, ghost held: set<Id>)
      requires Valid() && Stands(s, t, r) && MayRunDown(kind, r) && Token(t) !in held
      modifies this
      ensures Valid() && Kept(held, old(s), old(trace), s, trace) && closes == old(closes)
      ensures Mine(trace, Token(t)) == old(Mine(trace, Token(t))) + [RunDown(t)]
      ensures Stands(s, t, DownRole(r)) && !Active(s.life.word)
    {
      hide Reached, Mine, Kept, Enabled, Step, Stands, DownRole, MayRunDown, BitReset;
      Others(held + {Token(t)});
      StaysThere(held, t, r, old(s), s, old(trace), trace);
      RunDownIs(kind, trace, s, ids, t, r);
      connectionLock := BitReset(connectionLock);
      Then(RunDown(t), held, old(s), old(trace));
    }

    /** "Already disconnected" and "only once": at most one caller becomes the owner of the flag. */
    method TestDisconnect(ghost t: nat, already: bool, ghost held: set<Id>) returns (owner: bool)
      requires Valid() && Stands(s, t, Disconnecting) && (already ==> kind == Tcp) && Token(t) !in held
      modifies this
      ensures Valid() && Kept(held, old(s), old(trace), s, trace) && closes == old(closes)
      ensures Mine(trace, Token(t)) == old(Mine(trace, Token(t))) + [TakeDisconnect(t, already)]
      ensures Stands(s, t, if owner then DisconnectOwner else Leaving) && (owner ==> !already)
    {
      hide Reached, Mine, Kept, Enabled, Step, Stands;
      Others(held + {Token(t)});
      StaysThere(held, t, Disconnecting, old(s), s, old(trace), trace);
      owner := !already && !disconnectActive;
      TestIs(kind, trace, s, ids, t, already);
      if !already {
        disconnectActive := true;
      }
      Then(TakeDisconnect(t, already), held, old(s), old(trace));
    }

    /** The system completes a request. */
    method Complete(ghost t: nat, op: Op, ok: bool, ghost held: set<Id>)
      requires Valid() && Stands(s, t, InFlight(op)) && Token(t) !in held
      modifies this
      ensures Valid() && Kept(held, old(s), old(trace), s, trace)
      ensures Mine(trace, Token(t)) == old(Mine(trace, Token(t))) + [Event.Complete(t, ok)]
      ensures Stands(s, t, Completing(op, ok))
    {
      hide Reached, Mine, Kept, Enabled, Step, Stands;
      Others(held + {Token(t)});
      StaysThere(held, t, InFlight(op), old(s), s, old(trace), trace);
      CompleteIs(kind, trace, s, ids, t, op, ok);
      Then(Event.Complete(t, ok), held, old(s), old(trace));
    }

    /** `OnRecv`, `OnSend`, `OnRead`, `OnWrite`, `OnTransact`: the user's code, under the token. */
    method Callback(ghost t: nat, op: Op, ok: bool, ghost held: set<Id>)
      requires Valid() && Stands(s, t, Completing(op, ok)) && op != DisconnectOp && Token(t) !in held
      modifies this
      ensures Valid() && Kept(held, old(s), old(trace), s, trace)
      ensures Mine(trace, Token(t)) == old(Mine(trace, Token(t))) + [Event.Callback(t)]
      ensures Stands(s, t, Called(op, ok))
    {
      hide Reached, Mine, Kept, Enabled, Step, Stands;
      Others(held + {Token(t)});
      StaysThere(held, t, Completing(op, ok), old(s), s, old(trace), trace);
      CallbackIs(kind, trace, s, ids, t, op, ok);
      Then(Event.Callback(t), held, old(s), old(trace));
    }

    /** The end of a completion; that of a disconnect clears the flag. */
    method EndCompletion(ghost t: nat, op: Op, ok: bool, ghost called: bool, ghost held: set<Id>)
      requires Valid() && Stands(s, t, if called then Called(op, ok) else Completing(op, ok)) && Token(t) !in held
      requires op == DisconnectOp ==> !called
      modifies this
      ensures Valid() && Kept(held, old(s), old(trace), s, trace) && closes == old(closes)
      ensures Mine(trace, Token(t)) ==
              old(Mine(trace, Token(t))) + [if op == DisconnectOp then ClearDisconnect(t) else Leave(t)]
      ensures Stands(s, t, Leaving)
    {
      hide Reached, Mine, Kept, Enabled, Step, Stands;
      ghost var r := if called then Called(op, ok) else Completing(op, ok);
      Others(held + {Token(t)});
      StaysThere(held, t, r, old(s), s, old(trace), trace);
      EndIs(kind, trace, s, ids, t, r);
      if op == DisconnectOp {
        disconnectActive := false;
        Then(ClearDisconnect(t), held, old(s), old(trace));
      } else {
        Then(Leave(t), held, old(s), old(trace));
      }
    }

    /** `UnlockConnection`: the token is given back; the last holder of a connection that was run down
        frees the listen flag and calls `OnDisconnect`. */
    method UnlockConnection(ghost t: nat, ghost held: set<Id>) returns (last: bool)
      requires Valid() && Stands(s, t, Leaving) && Token(t) !in held
      modifies this
      ensures Valid() && Kept(held, old(s), old(trace), s, trace) && closes == old(closes)
      ensures Mine(trace, Token(t)) == old(Mine(trace, Token(t))) + Out(t, last)
      ensures Unused(s, t)
    {
      hide Reached, Mine, Kept, Enabled, Step, Stands, Unused, Decremented;
      last := Release(t, held);
      if last {
        OnLastRelease(t, held, old(s), old(trace));
      }
    }

    method Release(ghost t: nat, ghost held: set<Id>) returns (last: bool)
      requires Valid() && Stands(s, t, Leaving) && Token(t) !in held
      modifies this
      ensures Valid() && Kept(held, old(s), old(trace), s, trace) && closes == old(closes)
      ensures Mine(trace, Token(t)) == old(Mine(trace, Token(t))) + [Unlock(t)]
      ensures if last then Drains(s, t, false) else Unused(s, t)
    {
      hide Reached, Mine, Kept, Enabled, Step, Stands, Unused, Decremented;
      Others(held + {Token(t)});
      StaysThere(held, t, Leaving, old(s), s, old(trace), trace);
      UnlockIs(kind, trace, s, ids, t);
      connectionLock := Decremented(connectionLock);
      last := connectionLock == 0;
      Then(Unlock(t), held, old(s), old(trace));
    }

    /** The listen flag is free again before `OnDisconnect` is called. */
    method OnLastRelease(ghost t: nat, ghost held: set<Id>, ghost s0: State, ghost trace0: seq<Event>)
      requires Valid() && Drains(s, t, false) && Token(t) !in held && Kept(held, s0, trace0, s, trace)
      modifies this
      ensures Valid() && Kept(held, s0, trace0, s, trace) && closes == old(closes)
      ensures Mine(trace, Token(t)) == old(Mine(trace, Token(t))) + [ClearListen(t), Disconnected(t)]
      ensures Unused(s, t)
    {
      hide Reached, Mine, Kept, Enabled, Step, Drains, Unused;
      Others(held + {Token(t)});
      StaysDraining(held, t, false, old(s), s, old(trace), trace);
      ClearIs(kind, trace, s, ids, t);
      listenActive := false;
      Then(ClearListen(t), held, old(s), old(trace));
      ghost var s1, trace1 := s, trace;
      Others(held + {Token(t)});
      StaysDraining(held, t, true, s1, s, trace1, trace);
      FinishIs(kind, trace, s, ids, t);
      Then(Disconnected(t), held, s1, trace1);
      KeptOn(held, s0, trace0, old(s), old(trace), s1, trace1);
      KeptOn(held, s0, trace0, s1, trace1, s, trace);
    }

    /** `IO_OBJECT::Close`: the handle goes away here if this thread is the last to release the handle
        lock; a socket then also forgets its flag bits. */
    method CloseHandleLock(drains: bool, ghost held: set<Id>)
      requires Valid() && Nobody !in held
      modifies this
      ensures Valid() && Kept(held, old(s), old(trace), s, trace)
      ensures closes == old(closes) + 1 && (drains ==> !handleOpen)
    {
      hide Reached, Mine, Kept, Enabled, Step;
      Others(held + {Nobody});
      KeptLess(held, old(s), old(trace), s, trace);
      if drains && handleOpen {
        CloseIs(kind, trace, s, ids);
        if kind == Tcp {
          listenActive, disconnectActive := false, false;
        }
        handleOpen := false;
        Then(CloseHandle, held, old(s), old(trace));
      }
      closes := closes + 1;
    }

    /** The completion of a disconnect: if it failed, other than because there is nothing to disconnect,
        the handle is closed; then the flag is freed and the token given back. */
    method CompleteDisconnect(ghost t: nat, code: Code, ghost held: set<Id>) returns (last: bool)
      requires Valid() && Stands(s, t, Completing(DisconnectOp, code == NoError))
      requires Token(t) !in held && Nobody !in held
      modifies this
      ensures Valid() && Kept(held, old(s), old(trace), s, trace) && Unused(s, t)
      ensures Mine(trace, Token(t)) == old(Mine(trace, Token(t))) + [ClearDisconnect(t)] + Out(t, last)
      ensures kind == Tcp && code in {NoError, InvalidHandle, ConnectionAborted, NotConnected} ==>
                closes == old(closes)
      ensures kind == Tcp && code !in {NoError, InvalidHandle, ConnectionAborted, NotConnected} ==>
                closes == old(closes) + 1
      ensures kind != Tcp ==> closes == old(closes) + if code in {NoError, InvalidHandle, Notice} then 0 else 1
    {
      hide Reached, Mine, Kept, Stands, Unused, Out, Coupled;
      ghost var s0, trace0 := s, trace;
      var benign := code == NoError || code == InvalidHandle;
      if kind == Tcp {
        benign := benign || code == ConnectionAborted || code == NotConnected;
      } else {
        benign := benign || code == Notice;
      }
      if !benign {
        var drains := *;
        CloseHandleLock(drains, held + {Token(t)});
        StaysThere(held, t, Completing(DisconnectOp, code == NoError), s0, s, trace0, trace);
        KeptMine(held, Token(t), s0, s, trace0, trace);
        KeptPart(held, Token(t), s0, trace0, s, trace);
      } else {
        KeptSelf(held, s, trace);
      }
      ghost var s1, trace1 := s, trace;
      EndCompletion(t, DisconnectOp, code == NoError, false, held);
      KeptOn(held, s0, trace0, s1, trace1, s, trace);
      ghost var s2, trace2 := s, trace;
      last := UnlockConnection(t, held);
      KeptOn(held, s0, trace0, s2, trace2, s, trace);
    }

    /** The disconnect request of the owner of the flag: with the system, or completed here. */
    method IssueDisconnect(ghost v: nat, sys: System, ghost held: set<Id>) returns (end: End, ghost more: seq<Event>)
      requires Valid() && Stands(s, v, DisconnectOwner) && Token(v) !in held && Nobody !in held
               && sys != Refuses(NoError)
      modifies this
      ensures Valid() && Kept(held, old(s), old(trace), s, trace)
      ensures Mine(trace, Token(v)) == old(Mine(trace, Token(v))) + more
      ensures match end
              case NotLocked => false
              case HandedOff =>
                sys == Takes && more == [Event.Issue(v, Queued)] && Stands(s, v, InFlight(DisconnectOp))
              case GivenBack(last) =>
                && Unused(s, v)
                && more == [Event.Issue(v, if sys == NoBlock then NoRequest else Refused), ClearDisconnect(v)]
                           + Out(v, last)
                && (sys == Takes && kind != PipeClient ==> !handleOpen)
    {
      hide Reached, Mine, Kept, Stands, Unused, Out, Coupled;
      ghost var s0, trace0 := s, trace;
      var how, code := Issue(v, DisconnectOwner, sys, held);
      if how == Queued {
        return HandedOff, [Event.Issue(v, how)];
      }
      HandleIs();
      ghost var s1, trace1 := s, trace;
      if how == NoRequest {
        code := Failure;
      }
      var last := CompleteDisconnect(v, code, held);
      KeptOn(held, s0, trace0, s1, trace1, s, trace);
      StaysClosed(held, s1, trace1, s, trace);
      HandleIs();
      more := [Event.Issue(v, how), ClearDisconnect(v)] + Out(v, last);
      end := GivenBack(last);
    }

    /** `Disconnect` on a socket or a pipe server. After the rundown one caller at a time issues the
        request, and the token goes with it; every other path gives the token back here. */
    method Disconnect(ghost v: nat, reason: Code, sys: System, ghost held: set<Id>)
      returns (end: End, ghost path: seq<Event>)
      requires Valid() && v in ids && Unused(s, v) && kind != PipeClient && sys != Refuses(NoError)
      requires Token(v) !in held && Nobody !in held
      modifies this
      ensures Valid() && Kept(held, old(s), old(trace), s, trace)
      ensures Mine(trace, Token(v)) == old(Mine(trace, Token(v))) + path
      ensures kind == Tcp ==>
                DisconnectPath(v, reason in {InvalidHandle, NotConnected, SocketAborted, SocketReset,
                                             SocketDisconnecting, ConnectionAborted}, sys, path, end)
      ensures kind != Tcp ==> DisconnectPath(v, false, sys, path, end)
      ensures end.GivenBack? && sys == Takes && path == Failing(v, Refused, end.last) ==> !handleOpen
      ensures if end.HandedOff? then Stands(s, v, InFlight(DisconnectOp)) else Unused(s, v)
    {
      hide Reached, Mine, Kept, Stands, Unused, Out, Coupled, DisconnectPath, Active;
      ghost var s0, trace0 := s, trace;
      var already := false;
      if kind == Tcp {
        already := reason in {InvalidHandle, NotConnected, SocketAborted, SocketReset, SocketDisconnecting,
                              ConnectionAborted};
      }
      var ok := LockConnection(v, Caller(DisconnectOp), held);
      path := [Lock(v, Caller(DisconnectOp))];
      if !ok {
        DisconnectPaths(v, already, sys, path, NotLocked);
        return NotLocked, path;
      }
      ghost var s1, trace1 := s, trace;
      RunDownConnection(v, Caller(DisconnectOp), held);
      KeptOn(held, s0, trace0, s1, trace1, s, trace);
      ghost var s2, trace2 := s, trace;
      var owner := TestDisconnect(v, already, held);
      KeptOn(held, s0, trace0, s2, trace2, s, trace);
      path := [Lock(v, Caller(DisconnectOp)), RunDown(v), TakeDisconnect(v, already)];
      ghost var s3, trace3 := s, trace;
      if !owner {
        var last := UnlockConnection(v, held);
        KeptOn(held, s0, trace0, s3, trace3, s, trace);
        path := path + Out(v, last);
        end := GivenBack(last);
        DisconnectPaths(v, already, sys, path, end);
        return;
      }
      ghost var more;
      end, more := IssueDisconnect(v, sys, held);
      KeptOn(held, s0, trace0, s3, trace3, s, trace);
      path := path + more;
      if end.GivenBack? {
        assert path == Failing(v, if sys == NoBlock then NoRequest else Refused, end.last);
      }
      DisconnectPaths(v, already, sys, path, end);
    }

    /** `Close`: runs the connection down and closes the handle; a pipe end closes the handle first. */
    method Close(ghost v: nat, ghost held: set<Id>) returns (end: End, ghost path: seq<Event>)
      requires Valid() && v in ids && Unused(s, v) && Token(v) !in held && Nobody !in held
      modifies this
      ensures Valid() && Kept(held, old(s), old(trace), s, trace)
      ensures Mine(trace, Token(v)) == old(Mine(trace, Token(v))) + path && ClosePath(v, path, end)
      ensures Unused(s, v) && closes == old(closes) + 1
    {
      hide Reached, Mine, Kept, Stands, Unused, Out, Coupled, Active;
      ghost var s0, trace0 := s, trace;
      if kind != Tcp {
        var drains := *;
        CloseHandleLock(drains, held + {Token(v)});
        StaysUnused(held, v, s0, s, trace0, trace);
        KeptPart(held, Token(v), s0, trace0, s, trace);
      } else {
        KeptSelf(held, s, trace);
      }
      ghost var s1, trace1 := s, trace;
      end, path := CloseConnection(v, held);
      KeptOn(held, s0, trace0, s1, trace1, s, trace);
      if kind == Tcp {
        ghost var s2, trace2 := s, trace;
        var drains := *;
        CloseHandleLock(drains, held + {Token(v)});
        StaysUnused(held, v, s2, s, trace2, trace);
        KeptPart(held, Token(v), s2, trace2, s, trace);
        KeptOn(held, s0, trace0, s2, trace2, s, trace);
      }
    }

    method CloseConnection(ghost v: nat, ghost held: set<Id>) returns (end: End, ghost path: seq<Event>)
      requires Valid() && v in ids && Unused(s, v) && Token(v) !in held
      modifies this
      ensures Valid() && Kept(held, old(s), old(trace), s, trace)
      ensures Mine(trace, Token(v)) == old(Mine(trace, Token(v))) + path && ClosePath(v, path, end)
      ensures Unused(s, v) && closes == old(closes)
    {
      hide Reached, Mine, Kept, Stands, Unused, Out, Coupled, Active;
      ghost var s0, trace0 := s, trace;
      var ok := LockConnection(v, Closer, held);
      path := [Lock(v, Closer)];
      if !ok {
        return NotLocked, path;
      }
      ghost var s1, trace1 := s, trace;
      RunDownConnection(v, Closer, held);
      KeptOn(held, s0, trace0, s1, trace1, s, trace);
      ghost var s2, trace2 := s, trace;
      var last := UnlockConnection(v, held);
      KeptOn(held, s0, trace0, s2, trace2, s, trace);
      path := [Lock(v, Closer), RunDown(v)] + Out(v, last);
      end := GivenBack(last);
    }

    /** `Send`, `Recv`, `Transact`, `Read`, `Write`: the token goes with the request if the system takes
        it; if the system refuses it with `code`, the completion routine is called here and gives the token
        back; if there is no request block, the token is given back here. The id u is for a `Disconnect` or
        `Close` that the completion calls. */
    method Start(ghost t: nat, op: Op, sys: System, ghost u: nat, ghost held: set<Id>)
      returns (end: End, ghost path: seq<Event>, code: Code, follow: Follow, down: bool, ghost after: seq<Event>)
      requires Valid() && t in ids && u in ids && t != u && Unused(s, t) && Unused(s, u)
      requires op != DisconnectOp && (op == TransactOp ==> kind != Tcp) && sys != Refuses(NoError)
      requires Token(t) !in held && Token(u) !in held && Nobody !in held
      modifies this
      ensures Valid() && Kept(held, old(s), old(trace), s, trace)
      ensures Mine(trace, Token(t)) == old(Mine(trace, Token(t))) + path && StartPath(t, op, sys, path, end)
      ensures if end.HandedOff? then Stands(s, t, InFlight(op)) else Unused(s, t)
      ensures end.GivenBack? && sys != NoBlock ==>
                && path == [Lock(t, Caller(op)), Event.Issue(t, Refused)] + Way(t, op != RecvOp, down, end.last)
                && if op == TransactOp then follow == Nothing && !down else Handled(kind, code, follow, down)
      ensures end.GivenBack? && sys != NoBlock ==> sys == Refuses(code) || code == InvalidHandle
      ensures end.GivenBack? && sys == Takes && kind != PipeClient ==> !handleOpen
      ensures !end.GivenBack? || sys == NoBlock ==> follow == Nothing
      ensures Followed(follow, u, after) && old(Mine(trace, Token(u))) + after <= Mine(trace, Token(u))
    {
      hide Reached, Mine, Kept, Stands, Unused, Out, Coupled, Active, Handled, DisconnectPath, ClosePath;
      ghost var s0, trace0 := s, trace;
      follow, down, after, code := Nothing, false, [], InvalidHandle;
      var ok := LockConnection(t, Caller(op), held + {Token(u)});
      path := [Lock(t, Caller(op))];
      StaysUnused(held, u, s0, s, trace0, trace);
      if !ok {
        KeptPart(held, Token(u), s0, trace0, s, trace);
        end := NotLocked;
        return;
      }
      ghost var s1, trace1 := s, trace;
      var how;
      how, code := Issue(t, Caller(op), sys, held + {Token(u)});
      StaysUnused(held, u, s1, s, trace1, trace);
      KeptOn(held + {Token(u)}, s0, trace0, s1, trace1, s, trace);
      KeptPart(held, Token(u), s0, trace0, s, trace);
      path := [Lock(t, Caller(op)), Event.Issue(t, how)];
      if how == Queued {
        end := HandedOff;
        return;
      }
      HandleIs();
      ghost var s2, trace2 := s, trace;
      var last;
      if how == NoRequest {
        last := UnlockConnection(t, held);
        KeptGrows(held, Token(u), s2, trace2, s, trace);
        path := path + Out(t, last);
      } else {
        last, follow, down, after := CompleteFailed(t, op, code, u, held);
        path := path + Way(t, op != RecvOp, down, last);
      }
      end := GivenBack(last);
      KeptOn(held, s0, trace0, s2, trace2, s, trace);
      StaysClosed(held, s2, trace2, s, trace);
      HandleIs();
    }

    /** What a failed or empty transfer leads to: a socket disconnects; a pipe end disconnects, closes, or
        runs the connection down under the token it still holds. */
    method OnError(ghost t: nat, ghost r: Role, code: Code, ghost u: nat, ghost held: set<Id>)
      returns (follow: Follow, down: bool, ghost after: seq<Event>)
      requires Valid() && Stands(s, t, r) && (kind != Tcp ==> code != NoError && MayRunDown(kind, r))
      requires !r.Caller? && r != Closer && t != u && u in ids && Unused(s, u)
      requires Token(t) !in held && Token(u) !in held && Nobody !in held
      modifies this
      ensures Valid() && Kept(held, old(s), old(trace), s, trace) && Stands(s, t, r)
      ensures Mine(trace, Token(t)) == old(Mine(trace, Token(t))) + if down then [RunDown(t)] else []
      ensures Mine(trace, Token(u)) == old(Mine(trace, Token(u))) + after && Followed(follow, u, after)
      ensures kind == Tcp ==>
                follow == Disconnects(code in {InvalidHandle, NotConnected, SocketAborted, SocketReset,
                                               SocketDisconnecting, ConnectionAborted})
      ensures kind == PipeServer && code in {Cancelled, PipeBroken, PipeClosing} ==> follow == Disconnects(false)
      ensures kind == PipeClient && code in {Cancelled, PipeBroken, PipeClosing} ==> follow == Closes
      ensures down <==> kind != Tcp && code in {PipeDisconnected, InvalidHandle}
      ensures kind != Tcp && code in {PipeDisconnected, InvalidHandle, Notice} ==> follow == Nothing
      ensures kind != Tcp && code !in {Cancelled, PipeBroken, PipeClosing, PipeDisconnected, InvalidHandle, Notice} ==>
                follow == Closes
      ensures Handled(kind, code, follow, down)
    {
      hide Reached, Mine, Kept, Stands, Unused, Out, Coupled, Active, DisconnectPath, ClosePath, StartPath;
      ghost var s0, trace0 := s, trace;
      follow, down, after := Nothing, false, [];
      var sys :| sys != Refuses(NoError);
      var end;
      if kind == Tcp {
        end, after := Disconnect(u, code, sys, held + {Token(t)});
        follow := Disconnects(code in {InvalidHandle, NotConnected, SocketAborted, SocketReset,
                                       SocketDisconnecting, ConnectionAborted});
      } else if code == Cancelled || code == PipeBroken || code == PipeClosing {
        if kind == PipeServer {
          end, after := Disconnect(u, NoError, sys, held + {Token(t)});
          follow := Disconnects(false);
        } else {
          end, after := Close(u, held + {Token(t)});
          follow := Closes;
        }
      } else if code == PipeDisconnected || code == InvalidHandle {
        RunDownConnection(t, r, held + {Token(u)});
        StaysUnused(held, u, s0, s, trace0, trace);
        KeptPart(held, Token(u), s0, trace0, s, trace);
        down := true;
      } else if code == Notice {
        KeptSelf(held, s, trace);
      } else {
        end, after := Close(u, held + {Token(t)});
        follow := Closes;
      }
      if follow != Nothing {
        StaysThere(held, t, r, s0, s, trace0, trace);
        KeptMine(held, Token(t), s0, s, trace0, trace);
        KeptPart(held, Token(t), s0, trace0, s, trace);
      }
    }

    /** The end of the completion of a transfer: out of the completion and of the connection. */
    method Finish(ghost t: nat, op: Op, ok: bool, ghost called: bool, ghost u: nat, ghost held: set<Id>)
      returns (last: bool)
      requires Valid() && Stands(s, t, if called then Called(op, ok) else Completing(op, ok)) && op != DisconnectOp
      requires Token(t) !in held
      modifies this
      ensures Valid() && Kept(held, old(s), old(trace), s, trace) && Unused(s, t)
      ensures Mine(trace, Token(t)) == old(Mine(trace, Token(t))) + ([Leave(t)] + Out(t, last))
      ensures old(Mine(trace, Token(u))) <= Mine(trace, Token(u))
    {
      hide Reached, Mine, Kept, Stands, Unused, Out, Coupled, Active;
      ghost var s0, trace0 := s, trace;
      EndCompletion(t, op, ok, called, held);
      ghost var s1, trace1 := s, trace;
      last := UnlockConnection(t, held);
      KeptOn(held, s0, trace0, s1, trace1, s, trace);
      KeptGrows(held, Token(u), s0, trace0, s, trace);
    }

    /** `IOCompletionRoutine` with an error, for a transfer that moved no bytes: the callback of a write and
        of a transaction, then the handling of the error; in any case the token is given back. */
    method CompleteFailed(ghost t: nat, op: Op, code: Code, ghost u: nat, ghost held: set<Id>)
      returns (last: bool, follow: Follow, down: bool, ghost after: seq<Event>)
      requires Valid() && Stands(s, t, Completing(op, false)) && op != DisconnectOp && t != u && u in ids
               && Unused(s, u) && code != NoError
      requires Token(t) !in held && Token(u) !in held && Nobody !in held
      modifies this
      ensures Valid() && Kept(held, old(s), old(trace), s, trace) && Unused(s, t)
      ensures Mine(trace, Token(t)) == old(Mine(trace, Token(t))) + Way(t, op != RecvOp, down, last)
      ensures if op == TransactOp then follow == Nothing && !down else Handled(kind, code, follow, down)
      ensures kind == Tcp ==> !down
      ensures Followed(follow, u, after) && old(Mine(trace, Token(u))) + after <= Mine(trace, Token(u))
    {
      hide Reached, Mine, Kept, Stands, Unused, Out, Coupled, Active, Handled, StartPath, DisconnectPath, ClosePath;
      ghost var s0, trace0 := s, trace;
      KeptSelf(held, s, trace);
      var called := op != RecvOp;
      if called {
        Callback(t, op, false, held + {Token(u)});
        StaysUnused(held, u, s0, s, trace0, trace);
        KeptPart(held, Token(u), s0, trace0, s, trace);
      }
      ghost var s1, trace1 := s, trace;
      follow, down, after := Nothing, false, [];
      if op != TransactOp {
        follow, down, after := OnError(t, if called then Called(op, false) else Completing(op, false), code, u, held);
        KeptOn(held, s0, trace0, s1, trace1, s, trace);
      }
      ghost var s2, trace2 := s, trace;
      last := Finish(t, op, false, called, u, held);
      KeptOn(held, s0, trace0, s2, trace2, s, trace);
    }

    /** What the answer of a callback asks for: the next receive, nothing, or a disconnect. */
    method Next(answer: int, ghost t: nat, ghost r: Role, ghost u: nat, ghost v: nat, ghost held: set<Id>)
      returns (follow: Follow, ghost after: seq<Event>)
      requires Valid() && Stands(s, t, r) && t != u && t != v && u != v && u in ids && v in ids && Unused(s, u)
               && Unused(s, v)
      requires Token(t) !in held && Token(u) !in held && Token(v) !in held && Nobody !in held
      modifies this
      ensures Valid() && Kept(held, old(s), old(trace), s, trace) && Stands(s, t, r)
      ensures Mine(trace, Token(t)) == old(Mine(trace, Token(t)))
      ensures Mine(trace, Token(u)) == old(Mine(trace, Token(u))) + after && Followed(follow, u, after)
      ensures answer > 0 ==> follow == Receives
      ensures answer < 0 ==> follow == Nothing
      ensures answer == 0 ==> follow == if kind == PipeClient then Closes else Disconnects(false)
    {
      hide Reached, Mine, Kept, Stands, Unused, Out, Coupled, Active, DisconnectPath, ClosePath, StartPath;
      ghost var s0, trace0 := s, trace;
      var sys :| sys != Refuses(NoError);
      var end;
      after := [];
      if answer < 0 {
        KeptSelf(held, s, trace);
        return Nothing, [];
      } else if answer > 0 {
        var code, again, down;
        ghost var rest;
        end, after, code, again, down, rest := Start(u, RecvOp, sys, v, held + {Token(t)});
        follow := Receives;
      } else if kind == PipeClient {
        end, after := Close(u, held + {Token(t)});
        follow := Closes;
      } else {
        end, after := Disconnect(u, NoError, sys, held + {Token(t)});
        follow := Disconnects(false);
      }
      StaysThere(held, t, r, s0, s, trace0, trace);
      KeptMine(held, Token(t), s0, s, trace0, trace);
      KeptPart(held, Token(t), s0, trace0, s, trace);
    }

    /** The callback of a transfer; ids for what may follow stay unused. */
    method CallbackFirst(ghost t: nat, op: Op, ok: bool, ghost u: nat, ghost v: nat, ghost held: set<Id>)
      requires Valid() && Stands(s, t, Completing(op, ok)) && op != DisconnectOp
      requires t != u && t != v && Unused(s, u) && Unused(s, v) && Token(t) !in held
      modifies this
      ensures Valid() && Kept(held, old(s), old(trace), s, trace)
      ensures Mine(trace, Token(t)) == old(Mine(trace, Token(t))) + [Event.Callback(t)]
      ensures Mine(trace, Token(u)) == old(Mine(trace, Token(u)))
      ensures Stands(s, t, Called(op, ok)) && Unused(s, u) && Unused(s, v)
    {
      hide Reached, Mine, Kept, Stands, Unused, Coupled;
      Callback(t, op, ok, held + {Token(v)} + {Token(u)});
      StaysUnused(held + {Token(v)}, u, old(s), s, old(trace), trace);
      KeptPart(held + {Token(v)}, Token(u), old(s), old(trace), s, trace);
      StaysUnused(held, v, old(s), s, old(trace), trace);
      KeptPart(held, Token(v), old(s), old(trace), s, trace);
    }

    /** `IOCompletionRoutine` for a transfer that succeeded: the callback, what it asks for, and the token
        is given back. */
    method CompleteOk(ghost t: nat, op: Op, answer: int, ghost u: nat, ghost v: nat, ghost held: set<Id>)
      returns (last: bool, follow: Follow, ghost after: seq<Event>)
      requires Valid() && Stands(s, t, Completing(op, true)) && op != DisconnectOp
      requires t != u && t != v && u != v && u in ids && v in ids && Unused(s, u) && Unused(s, v)
      requires Token(t) !in held && Token(u) !in held && Token(v) !in held && Nobody !in held
      modifies this
      ensures Valid() && Kept(held, old(s), old(trace), s, trace) && Unused(s, t)
      ensures Mine(trace, Token(t)) == old(Mine(trace, Token(t))) + ([Event.Callback(t), Leave(t)] + Out(t, last))
      ensures op != RecvOp || answer < 0 ==> follow == Nothing
      ensures op == RecvOp && answer > 0 ==> follow == Receives
      ensures op == RecvOp && answer == 0 ==> follow == if kind == PipeClient then Closes else Disconnects(false)
      ensures Followed(follow, u, after) && old(Mine(trace, Token(u))) + after <= Mine(trace, Token(u))
    {
      hide Reached, Mine, Kept, Stands, Unused, Out, Coupled, Active, StartPath, DisconnectPath, ClosePath;
      ghost var s0, trace0 := s, trace;
      CallbackFirst(t, op, true, u, v, held);
      ghost var s1, trace1 := s, trace;
      follow, after := Nothing, [];
      if op == RecvOp {
        follow, after := Next(answer, t, Called(op, true), u, v, held);
        KeptOn(held, s0, trace0, s1, trace1, s, trace);
      }
      ghost var s2, trace2 := s, trace;
      last := Finish(t, op, true, true, u, held);
      KeptOn(held, s0, trace0, s2, trace2, s, trace);
    }

    /** `IOCompletionRoutine` of a socket for a receive that fails after some bytes: `OnRecv` gets them, and
        its answer asks for the next receive, for nothing, or for the disconnect that the error calls for. */
    method CompletePartial(ghost t: nat, code: Code, answer: int, ghost u: nat, ghost v: nat, ghost held: set<Id>)
      returns (last: bool, follow: Follow, ghost after: seq<Event>)
      requires Valid() && kind == Tcp && Stands(s, t, Completing(RecvOp, false)) && code != NoError
      requires t != u && t != v && u != v && u in ids && v in ids && Unused(s, u) && Unused(s, v)
      requires Token(t) !in held && Token(u) !in held && Token(v) !in held && Nobody !in held
      modifies this
      ensures Valid() && Kept(held, old(s), old(trace), s, trace) && Unused(s, t)
      ensures Mine(trace, Token(t)) == old(Mine(trace, Token(t))) + ([Event.Callback(t), Leave(t)] + Out(t, last))
      ensures answer > 0 ==> follow == Receives
      ensures answer < 0 ==> follow == Nothing
      ensures answer == 0 ==> Handled(kind, code, follow, false)
      ensures Followed(follow, u, after) && old(Mine(trace, Token(u))) + after <= Mine(trace, Token(u))
    {
      hide Reached, Mine, Kept, Stands, Unused, Out, Coupled, Active, StartPath, DisconnectPath, ClosePath;
      ghost var s0, trace0 := s, trace;
      CallbackFirst(t, RecvOp, false, u, v, held);
      ghost var s1, trace1 := s, trace;
      if answer == 0 {
        var down;
        follow, down, after := OnError(t, Called(RecvOp, false), code, u, held);
      } else {
        follow, after := Next(answer, t, Called(RecvOp, false), u, v, held);
      }
      KeptOn(held, s0, trace0, s1, trace1, s, trace);
      ghost var s2, trace2 := s, trace;
      last := Finish(t, RecvOp, false, true, u, held);
      KeptOn(held, s0, trace0, s2, trace2, s, trace);
    }

    /** `IOCompletionRoutine` of a socket for a receive without an error and without bytes: `OnEmptyRecv` may
        keep the connection; otherwise it is disconnected, and `OnRecv` is not called. */
    method CompleteEmpty(ghost t: nat, keeps: bool, ghost u: nat, ghost held: set<Id>)
      returns (last: bool, follow: Follow, ghost after: seq<Event>)
      requires Valid() && kind == Tcp && Stands(s, t, Completing(RecvOp, true)) && t != u && u in ids && Unused(s, u)
      requires Token(t) !in held && Token(u) !in held && Nobody !in held
      modifies this
      ensures Valid() && Kept(held, old(s), old(trace), s, trace) && Unused(s, t)
      ensures Mine(trace, Token(t)) == old(Mine(trace, Token(t))) + ([Leave(t)] + Out(t, last))
      ensures follow == if keeps then Nothing else Disconnects(false)
      ensures Followed(follow, u, after) && old(Mine(trace, Token(u))) + after <= Mine(trace, Token(u))
    {
      hide Reached, Mine, Kept, Stands, Unused, Out, Coupled, Active, StartPath, DisconnectPath, ClosePath;
      ghost var s0, trace0 := s, trace;
      KeptSelf(held, s, trace);
      follow, after := Nothing, [];
      if !keeps {
        var down;
        follow, down, after := OnError(t, Completing(RecvOp, true), NoError, u, held);
      }
      ghost var s1, trace1 := s, trace;
      last := Finish(t, RecvOp, true, false, u, held);
      KeptOn(held, s0, trace0, s1, trace1, s, trace);
    }

    /** `IOCompletionRoutine`, called by the system for a request in flight: whatever the request and its
        outcome, the token that was handed to it is given back exactly once. `answer` is what the callback,
        or `OnEmptyRecv`, will return; u is the token of what follows. */
    method IOCompletionRoutine(ghost t: nat, op: Op, code: Code, bytes: bool, answer: int, ghost u: nat,
                               ghost v: nat, ghost held: set<Id>)
      returns (last: bool, ghost path: seq<Event>, follow: Follow, down: bool, ghost after: seq<Event>)
      requires Valid() && Stands(s, t, InFlight(op))
      requires t != u && t != v && u != v && u in ids && v in ids && Unused(s, u) && Unused(s, v)
      requires Token(t) !in held && Token(u) !in held && Token(v) !in held && Nobody !in held
      modifies this
      ensures Valid() && Kept(held, old(s), old(trace), s, trace) && Unused(s, t)
      ensures Mine(trace, Token(t)) == old(Mine(trace, Token(t))) + [Event.Complete(t, code == NoError)] + path
      // a disconnect
      ensures op == DisconnectOp ==> path == [ClearDisconnect(t)] + Out(t, last) && follow == Nothing
      // a write or a transaction: the callback in any case
      ensures op in {SendOp, TransactOp} && code == NoError ==>
                path == [Event.Callback(t), Leave(t)] + Out(t, last) && follow == Nothing
      ensures op in {SendOp, TransactOp} ==> path == Way(t, true, down, last)
      ensures op == TransactOp ==> follow == Nothing && !down
      ensures op == SendOp && code != NoError ==> Handled(kind, code, follow, down)
      // a receive of a socket: the callback exactly if there are bytes
      ensures op == RecvOp && kind == Tcp && bytes ==> path == [Event.Callback(t), Leave(t)] + Out(t, last)
      ensures op == RecvOp && kind == Tcp && !bytes ==> path == [Leave(t)] + Out(t, last)
      ensures op == RecvOp && kind == Tcp && !bytes && code == NoError ==>
                follow == if answer != 0 then Nothing else Disconnects(false)
      ensures op == RecvOp && kind == Tcp && (code != NoError && (!bytes || answer == 0)) ==>
                Handled(kind, code, follow, false)
      // a read of a pipe: the callback exactly if it succeeded
      ensures op == RecvOp && kind != Tcp && code == NoError ==> path == [Event.Callback(t), Leave(t)] + Out(t, last)
      ensures op == RecvOp && kind != Tcp && code != NoError ==>
                path == Way(t, false, down, last) && Handled(kind, code, follow, down)
      // what the answer of the callback of a receive asks for
      ensures op == RecvOp && (if kind == Tcp then bytes else code == NoError) && answer > 0 ==> follow == Receives
      ensures op == RecvOp && (if kind == Tcp then bytes else code == NoError) && answer < 0 ==> follow == Nothing
      ensures op == RecvOp && code == NoError && (kind == Tcp ==> bytes) && answer == 0 ==>
                follow == if kind == PipeClient then Closes else Disconnects(false)
      ensures Followed(follow, u, after) && old(Mine(trace, Token(u))) + after <= Mine(trace, Token(u))
    {
      hide Reached, Mine, Kept, Stands, Unused, Out, Coupled, Active, Handled, StartPath, DisconnectPath, ClosePath;
      ghost var s0, trace0 := s, trace;
      Complete(t, op, code == NoError, held + {Token(v)} + {Token(u)});
      StaysUnused(held + {Token(v)}, u, s0, s, trace0, trace);
      KeptPart(held + {Token(v)}, Token(u), s0, trace0, s, trace);
      StaysUnused(held, v, s0, s, trace0, trace);
      KeptPart(held, Token(v), s0, trace0, s, trace);
      ghost var s1, trace1 := s, trace;
      follow, down, after := Nothing, false, [];
      if op == DisconnectOp {
        last := CompleteDisconnect(t, code, held);
        KeptGrows(held, Token(u), s1, trace1, s, trace);
        path := [ClearDisconnect(t)] + Out(t, last);
      } else if op == RecvOp && kind == Tcp && code == NoError && !bytes {
        last, follow, after := CompleteEmpty(t, answer != 0, u, held);
        path := [Leave(t)] + Out(t, last);
      } else if code == NoError {
        last, follow, after := CompleteOk(t, op, answer, u, v, held);
        path := [Event.Callback(t), Leave(t)] + Out(t, last);
      } else if op == RecvOp && kind == Tcp && bytes {
        last, follow, after := CompletePartial(t, code, answer, u, v, held);
        path := [Event.Callback(t), Leave(t)] + Out(t, last);
      } else {
        last, follow, down, after := CompleteFailed(t, op, code, u, held);
        path := Way(t, op != RecvOp, down, last);
      }
      KeptOn(held, s0, trace0, s1, trace1, s, trace);
    }

    /** `Listen` and `Connect`: refused while a listener or a connection exists; otherwise the request is
        with the system, or fails here and frees the flag. */
    method Listen(ghost l: nat, sys: System, ghost held: set<Id>) returns (end: ListenEnd, ghost path: seq<Event>)
      requires Valid() && kind != PipeClient && l !in s.listeners && Listening(l) !in held
      modifies this
      ensures Valid() && Kept(held, old(s), old(trace), s, trace)
      ensures Mine(trace, Listening(l)) == old(Mine(trace, Listening(l))) + path && ListenPath(l, path, end)
      ensures if end == Waiting then sys == Takes && Listens(s, l, Armed) else l !in s.listeners
      ensures Arm(l, NoRequest) in path ==> sys == NoBlock
      ensures Arm(l, Refused) in path ==> sys.Refuses? || (sys == Takes && !handleOpen)
    {
      hide Reached, Mine, Kept, Coupled, Listens;
      ghost var s0, trace0 := s, trace;
      var busy := TestListen(l, held);
      path := [Claim(l)];
      if busy {
        return Busy, path;
      }
      ghost var s1, trace1 := s, trace;
      var how := IssueListen(l, sys, held);
      KeptOn(held, s0, trace0, s1, trace1, s, trace);
      path := [Claim(l), Arm(l, how)];
      if how == Queued {
        return Waiting, path;
      }
      HandleIs();
      ghost var s2, trace2 := s, trace;
      ListenFailed(l, held);
      KeptOn(held, s0, trace0, s2, trace2, s, trace);
      StaysClosed(held, s2, trace2, s, trace);
      HandleIs();
      path := [Claim(l), Arm(l, how), ClearFailed(l)];
      end := NotListening;
    }

    /** The test-and-set of the listen flag. */
    method TestListen(ghost l: nat, ghost held: set<Id>) returns (busy: bool)
      requires Valid() && kind != PipeClient && l !in s.listeners && Listening(l) !in held
      modifies this
      ensures Valid() && Kept(held, old(s), old(trace), s, trace)
      ensures Mine(trace, Listening(l)) == old(Mine(trace, Listening(l))) + [Claim(l)]
      ensures if busy then l !in s.listeners else Listens(s, l, Claimed)
    {
      hide Reached, Mine, Kept, Enabled, Step, Listens;
      Others(held + {Listening(l)});
      KeptMine(held, Listening(l), old(s), s, old(trace), trace);
      busy := listenActive;
      ClaimIs(kind, trace, s, ids, l);
      listenActive := true;
      Then(Claim(l), held, old(s), old(trace));
    }

    method IssueListen(ghost l: nat, sys: System, ghost held: set<Id>) returns (how: Outcome)
      requires Valid() && Listens(s, l, Claimed) && Listening(l) !in held
      modifies this
      ensures Valid() && Kept(held, old(s), old(trace), s, trace)
      ensures Mine(trace, Listening(l)) == old(Mine(trace, Listening(l))) + [Arm(l, how)]
      ensures Listens(s, l, if how == Queued then Armed else Failed)
      ensures sys == NoBlock ==> how == NoRequest
      ensures sys != NoBlock && (sys.Refuses? || !handleOpen) ==> how == Refused
      ensures sys == Takes && handleOpen ==> how == Queued
    {
      hide Reached, Mine, Kept, Enabled, Step;
      Others(held + {Listening(l)});
      KeptMine(held, Listening(l), old(s), s, old(trace), trace);
      match sys {
        case NoBlock => how := NoRequest;
        case Refuses(_) => how := Refused;
        case Takes => how := if handleOpen then Queued else Refused;
      }
      ArmIs(kind, trace, s, ids, l, how);
      Then(Arm(l, how), held, old(s), old(trace));
    }

    /** A failed listener frees the flag. */
    method ListenFailed(ghost l: nat, ghost held: set<Id>)
      requires Valid() && Listens(s, l, Failed) && Listening(l) !in held
      modifies this
      ensures Valid() && Kept(held, old(s), old(trace), s, trace) && l !in s.listeners
      ensures Mine(trace, Listening(l)) == old(Mine(trace, Listening(l))) + [ClearFailed(l)]
    {
      hide Reached, Mine, Kept, Enabled, Step;
      Others(held + {Listening(l)});
      KeptMine(held, Listening(l), old(s), s, old(trace), trace);
      FailIs(kind, trace, s, ids, l);
      listenActive := false;
      Then(ClearFailed(l), held, old(s), old(trace));
    }

    /** The lock's `Init`, whose result nobody looks at: it begins an epoch. */
    method InitConnection(ghost l: nat, ghost held: set<Id>)
      requires Valid() && Listens(s, l, Accepted) && Listening(l) !in held
      modifies this
      ensures Valid() && Kept(held, old(s), old(trace), s, trace) && l !in s.listeners
      ensures Mine(trace, Listening(l)) == old(Mine(trace, Listening(l))) + [InitLock(l)]
      ensures Active(connectionLock)
    {
      hide Reached, Mine, Kept, Enabled, Step;
      Others(held + {Listening(l)});
      KeptMine(held, Listening(l), old(s), s, old(trace), trace);
      InitIs(kind, trace, s, ids, l);
      if connectionLock == 0 {
        connectionLock := V_INIT;
      }
      Then(InitLock(l), held, old(s), old(trace));
    }

    /** `IOCompletionRoutine` for a listener or a connect: a failure frees the flag; a success opens the
        connection, and then what `OnConnect` asks for is done: the first receive, nothing, or a disconnect. */
    method CompleteListen(ghost l: nat, ok: bool, answer: int, ghost u: nat, ghost v: nat, ghost held: set<Id>)
      returns (ghost path: seq<Event>, follow: Follow, ghost after: seq<Event>)
      requires Valid() && Listens(s, l, Armed) && kind != PipeClient
      requires u != v && u in ids && v in ids && Unused(s, u) && Unused(s, v)
      requires Listening(l) !in held && Token(u) !in held && Token(v) !in held && Nobody !in held
      modifies this
      ensures Valid() && Kept(held, old(s), old(trace), s, trace) && l !in s.listeners
      ensures Mine(trace, Listening(l)) == old(Mine(trace, Listening(l))) + path
      ensures path == [Accept(l, ok), if ok then InitLock(l) else ClearFailed(l)]
      ensures Mine(trace, Token(u)) == old(Mine(trace, Token(u))) + after && Followed(follow, u, after)
      ensures !ok || answer < 0 ==> follow == Nothing
      ensures ok && answer > 0 ==> follow == Receives
      ensures ok && answer == 0 ==> follow == Disconnects(false)
    {
      hide Reached, Mine, Kept, Stands, Unused, Coupled, Active, Listens, StartPath, DisconnectPath, ClosePath;
      ghost var s0, trace0 := s, trace;
      ghost var inner := held + {Token(v)} + {Token(u)};
      AcceptListen(l, ok, inner);
      ghost var s1, trace1 := s, trace;
      if ok {
        InitConnection(l, inner);
      } else {
        ListenFailed(l, inner);
      }
      KeptOn(inner, s0, trace0, s1, trace1, s, trace);
      path := [Accept(l, ok), if ok then InitLock(l) else ClearFailed(l)];
      StaysUnused(held + {Token(v)}, u, s0, s, trace0, trace);
      KeptPart(held + {Token(v)}, Token(u), s0, trace0, s, trace);
      StaysUnused(held, v, s0, s, trace0, trace);
      KeptPart(held, Token(v), s0, trace0, s, trace);
      ghost var s2, trace2 := s, trace;
      follow, after := Nothing, [];
      if ok {
        follow, after := FirstRequest(answer, l, u, v, held);
        KeptOn(held, s0, trace0, s2, trace2, s, trace);
      }
    }

    /** `Assign` of a pipe client: the lock's `Init`, and what `OnConnect` asks for. */
    method Assign(answer: int, ghost u: nat, ghost v: nat, ghost held: set<Id>)
      returns (follow: Follow, ghost after: seq<Event>)
      requires Valid() && kind == PipeClient && u != v && u in ids && v in ids && Unused(s, u) && Unused(s, v)
      requires Token(u) !in held && Token(v) !in held && Nobody !in held
      modifies this
      ensures Valid() && Kept(held, old(s), old(trace), s, trace)
      ensures Mine(trace, Token(u)) == old(Mine(trace, Token(u))) + after && Followed(follow, u, after)
      ensures answer > 0 ==> follow == Receives
      ensures answer < 0 ==> follow == Nothing
      ensures answer == 0 ==> follow == Closes
    {
      hide Reached, Mine, Kept, Stands, Unused, Enabled, Step, StartPath, ClosePath, DisconnectPath;
      ghost var s0, trace0 := s, trace;
      AssignLock(held + {Token(v)} + {Token(u)});
      StaysUnused(held + {Token(v)}, u, s0, s, trace0, trace);
      KeptPart(held + {Token(v)}, Token(u), s0, trace0, s, trace);
      StaysUnused(held, v, s0, s, trace0, trace);
      KeptPart(held, Token(v), s0, trace0, s, trace);
      ghost var s1, trace1 := s, trace;
      var sys :| sys != Refuses(NoError);
      var end;
      if answer > 0 {
        var code, again, down;
        ghost var rest;
        end, after, code, again, down, rest := Start(u, RecvOp, sys, v, held);
        follow := Receives;
        KeptOn(held, s0, trace0, s1, trace1, s, trace);
      } else if answer == 0 {
        end, after := Close(u, held);
        follow := Closes;
        KeptOn(held, s0, trace0, s1, trace1, s, trace);
      } else {
        follow, after := Nothing, [];
      }
    }

    /** The handle is assigned and the lock initialised. */
    method AssignLock(ghost held: set<Id>)
      requires Valid() && kind == PipeClient && Nobody !in held
      modifies this
      ensures Valid() && Kept(held, old(s), old(trace), s, trace) && handleOpen
    {
      hide Reached, Mine, Kept, Enabled, Step;
      Others(held + {Nobody});
      AssignIs(kind, trace, s, ids);
      if connectionLock == 0 {
        connectionLock := V_INIT;
      }
      handleOpen := true;
      Then(AssignClient, held, old(s), old(trace));
    }

    method AcceptListen(ghost l: nat, ok: bool, ghost held: set<Id>)
      requires Valid() && Listens(s, l, Armed) && Listening(l) !in held
      modifies this
      ensures Valid() && Kept(held, old(s), old(trace), s, trace)
      ensures Mine(trace, Listening(l)) == old(Mine(trace, Listening(l))) + [Accept(l, ok)]
      ensures Listens(s, l, if ok then Accepted else Failed)
    {
      hide Reached, Mine, Kept, Enabled, Step;
      Others(held + {Listening(l)});
      KeptMine(held, Listening(l), old(s), s, old(trace), trace);
      AcceptIs(kind, trace, s, ids, l, ok);
      Then(Accept(l, ok), held, old(s), old(trace));
    }

    /** After `OnConnect`: the first receive, nothing, or a disconnect; none touches the listener. */
    method FirstRequest(answer: int, ghost l: nat, ghost u: nat, ghost v: nat, ghost held: set<Id>)
      returns (follow: Follow, ghost after: seq<Event>)
      requires Valid() && l !in s.listeners && kind != PipeClient
      requires u != v && u in ids && v in ids && Unused(s, u) && Unused(s, v)
      requires Listening(l) !in held && Token(u) !in held && Token(v) !in held && Nobody !in held
      modifies this
      ensures Valid() && Kept(held, old(s), old(trace), s, trace) && l !in s.listeners
      ensures Mine(trace, Listening(l)) == old(Mine(trace, Listening(l)))
      ensures Mine(trace, Token(u)) == old(Mine(trace, Token(u))) + after && Followed(follow, u, after)
      ensures answer > 0 ==> follow == Receives
      ensures answer < 0 ==> follow == Nothing
      ensures answer == 0 ==> follow == Disconnects(false)
    {
      hide Reached, Mine, Kept, Stands, Unused, Coupled, StartPath, DisconnectPath, ClosePath;
      ghost var s0, trace0 := s, trace;
      var sys :| sys != Refuses(NoError);
      var end;
      if answer < 0 {
        KeptSelf(held, s, trace);
        return Nothing, [];
      } else if answer > 0 {
        var code, again, down;
        ghost var rest;
        end, after, code, again, down, rest := Start(u, RecvOp, sys, v, held + {Listening(l)});
        follow := Receives;
      } else {
        end, after := Disconnect(u, NoError, sys, held + {Listening(l)});
        follow := Disconnects(false);
      }
      KeptMine(held, Listening(l), s0, s, trace0, trace);
      KeptPart(held, Listening(l), s0, trace0, s, trace);
    }
  }

  datatype ListenEnd = Busy | Waiting | NotListening

  predicate Listens(s: State, l: nat, x: Listener) {
    l in s.listeners && s.listeners[l] == x
  }

  predicate ListenPath(l: nat, path: seq<Event>, end: ListenEnd) {
    match end
    case Busy => path == [Claim(l)]
    case Waiting => path == [Claim(l), Arm(l, Queued)]
    case NotListening =>
            path == [Claim(l), Arm(l, Refused), ClearFailed(l)]
            || path == [Claim(l), Arm(l, NoRequest), ClearFailed(l)]
  }

  /** The way of a token through the completion of a transfer: perhaps the callback, perhaps the rundown of
      a broken pipe, and out. */
  function Way(t: nat, called: bool, down: bool, last: bool): seq<Event> {
    (if called then [Event.Callback(t)] else []) + (if down then [RunDown(t)] else []) + [Leave(t)] + Out(t, last)
  }

  predicate StartPath(t: nat, op: Op, sys: System, path: seq<Event>, end: End) {
    var lock := Lock(t, Caller(op));
    match end
    case NotLocked => path == [lock]
    case HandedOff => sys == Takes && path == [lock, Event.Issue(t, Queued)]
    case GivenBack(last) =>
      if sys == NoBlock then path == [lock, Event.Issue(t, NoRequest)] + Out(t, last)
      else
        || path == [lock, Event.Issue(t, Refused)] + Way(t, op != RecvOp, false, last)
        || path == [lock, Event.Issue(t, Refused)] + Way(t, op != RecvOp, true, last)
  }

  /** What follows, as events of another token. */
  ghost predicate Followed(follow: Follow, u: nat, after: seq<Event>) {
    match follow
    case Nothing => after == []
    case Receives => exists sys, end :: StartPath(u, RecvOp, sys, after, end)
    case Disconnects(already) => exists sys, end :: DisconnectPath(u, already, sys, after, end)
    case Closes => exists end :: ClosePath(u, after, end)
  }

  /** What the error of a transfer leads to, and whether its own token runs the connection down. */
  predicate Handled(kind: Kind, code: Code, follow: Follow, down: bool) {
    if kind == Tcp then
      && !down
      && follow == Disconnects(code in {InvalidHandle, NotConnected, SocketAborted, SocketReset,
                                        SocketDisconnecting, ConnectionAborted})
    else
      match code
      case Cancelled | PipeBroken | PipeClosing =>
        !down && follow == if kind == PipeServer then Disconnects(false) else Closes
      case PipeDisconnected | InvalidHandle => down && follow == Nothing
      case Notice => !down && follow == Nothing
      case _ => !down && follow == Closes
  }

  lemma StaysClosed(held: set<Id>, s: State, trace: seq<Event>, s': State, trace': seq<Event>)
    requires Kept(held, s, trace, s', trace')
    ensures s'.open ==> s.open || s.kind == PipeClient
  {
  }

  lemma MineGrows(trace: seq<Event>, trace': seq<Event>, id: Id)
    requires trace <= trace'
    ensures Mine(trace, id) <= Mine(trace', id)
  {
    if trace != trace' {
      MineGrows(trace, trace'[..|trace'| - 1], id);
    }
  }

  lemma KeptGrows(held: set<Id>, id: Id, s: State, trace: seq<Event>, s': State, trace': seq<Event>)
    requires Kept(held, s, trace, s', trace')
    ensures Mine(trace, id) <= Mine(trace', id)
  {
    MineGrows(trace, trace', id);
  }

  lemma KeptSelf(held: set<Id>, s: State, trace: seq<Event>)
    ensures Kept(held, s, trace, s, trace)
  {
    hide Mine;
  }

  lemma KeptPart(held: set<Id>, id: Id, s: State, trace: seq<Event>, s': State, trace': seq<Event>)
    requires Kept(held + {id}, s, trace, s', trace')
    ensures Kept(held, s, trace, s', trace')
  {
    forall x | x in held ensures Same(x, s, s') && Mine(trace', x) == Mine(trace, x) {
      assert x in held + {id};
    }
  }

  /** How a member ends for its token: it was never taken; it is with a request; or it was given back,
      by the last holder of a connection run down or not. */
  datatype End = NotLocked | HandedOff | GivenBack(last: bool)

  /** The way through `Disconnect` of the owner of the flag whose request does not get under way. */
  function Failing(t: nat, how: Outcome, last: bool): seq<Event> {
    [Lock(t, Caller(DisconnectOp)), RunDown(t), TakeDisconnect(t, false), Event.Issue(t, how), ClearDisconnect(t)]
    + Out(t, last)
  }

  /** The way of a token through `Disconnect`; `already` is its test of the reason. */
  predicate DisconnectPath(t: nat, already: bool, sys: System, path: seq<Event>, end: End) {
    var lock := [Lock(t, Caller(DisconnectOp))];
    match end
    case NotLocked => path == lock
    case HandedOff =>
      !already && sys == Takes && path == lock + [RunDown(t), TakeDisconnect(t, false), Event.Issue(t, Queued)]
    case GivenBack(last) =>
      || path == lock + [RunDown(t), TakeDisconnect(t, already)] + Out(t, last)
      || (!already && path == Failing(t, if sys == NoBlock then NoRequest else Refused, last))
  }

  predicate ClosePath(t: nat, path: seq<Event>, end: End) {
    match end
    case NotLocked => path == [Lock(t, Closer)]
    case HandedOff => false
    case GivenBack(last) => path == [Lock(t, Closer), RunDown(t)] + Out(t, last)
  }

  lemma DisconnectPaths(t: nat, already: bool, sys: System, path: seq<Event>, end: End)
    requires match end
             case NotLocked => path == [Lock(t, Caller(DisconnectOp))]
             case HandedOff =>
               && !already && sys == Takes
               && path == [Lock(t, Caller(DisconnectOp)), RunDown(t), TakeDisconnect(t, false)]
                  + [Event.Issue(t, Queued)]
             case GivenBack(last) =>
               || path == [Lock(t, Caller(DisconnectOp)), RunDown(t), TakeDisconnect(t, already)] + Out(t, last)
               || (!already && path == Failing(t, if sys == NoBlock then NoRequest else Refused, last))
    ensures DisconnectPath(t, already, sys, path, end)
  {
    hide Out, Failing;
  }

  /** The token was released, and its thread is to free the listen flag and to call `OnDisconnect`. */
  predicate Drains(s: State, t: nat, cleared: bool) {
    t !in s.role && t !in s.life.tokens && t in s.life.draining && (t in s.cleared <==> cleared)
  }

  lemma StaysDraining(held: set<Id>, t: nat, cleared: bool, s: State, s': State, trace: seq<Event>, trace': seq<Event>)
    requires Kept(held + {Token(t)}, s, trace, s', trace') && Drains(s, t, cleared)
    ensures Drains(s', t, cleared)
  {
    KeptMine(held, Token(t), s, s', trace, trace');
  }

  lemma KeptOn(held: set<Id>, s: State, trace: seq<Event>, s': State, trace': seq<Event>, s'': State,
               trace'': seq<Event>)
    requires Kept(held, s, trace, s', trace') && Kept(held, s', trace', s'', trace'')
    ensures Kept(held, s, trace, s'', trace'')
  {
    forall x | x in held ensures Same(x, s, s'') && Mine(trace'', x) == Mine(trace, x) {
      assert Same(x, s, s') && Same(x, s', s'');
    }
    hide Mine;
  }

  lemma KeptLess(held: set<Id>, s: State, trace: seq<Event>, s': State, trace': seq<Event>)
    requires Kept(held + {Nobody}, s, trace, s', trace')
    ensures Kept(held, s, trace, s', trace')
  {
    forall x | x in held ensures Same(x, s, s') && Mine(trace', x) == Mine(trace, x) {
      assert x in held + {Nobody};
    }
  }

  lemma KeptMine(held: set<Id>, id: Id, s: State, s': State, trace: seq<Event>, trace': seq<Event>)
    requires Kept(held + {id}, s, trace, s', trace')
    ensures Same(id, s, s') && Mine(trace', id) == Mine(trace, id) && s'.kind == s.kind
  {
    assert id in held + {id};
  }

  lemma StaysThere(held: set<Id>, t: nat, r: Role, s: State, s': State, trace: seq<Event>, trace': seq<Event>)
    requires Kept(held + {Token(t)}, s, trace, s', trace') && Stands(s, t, r)
    ensures Stands(s', t, r)
  {
    KeptMine(held, Token(t), s, s', trace, trace');
  }

  lemma StaysUnused(held: set<Id>, t: nat, s: State, s': State, trace: seq<Event>, trace': seq<Event>)
    requires Kept(held + {Token(t)}, s, trace, s', trace') && Unused(s, t)
    ensures Unused(s', t) && Mine(trace', Token(t)) == Mine(trace, Token(t)) && s'.kind == s.kind
  {
    assert Token(t) in held + {Token(t)} && Same(Token(t), s, s');
  }

  lemma RoomToLock(s: State, t: nat, ids: set<nat>)
    requires s.life.tokens <= ids && |ids| < V_INIT && t in ids && Unused(s, t)
    ensures L.Enabled(s.life, L.Acquire(t)) && s.life.tokens + {t} <= ids
  {
    assert |s.life.tokens + {t}| <= |ids| by {
      assert ids == (s.life.tokens + {t}) + (ids - (s.life.tokens + {t}));
    }
  }

  lemma LockIs(kind: Kind, trace: seq<Event>, s: State, ids: set<nat>, t: nat, r: Role)
    requires Reached(kind, trace, s, ids) && t in ids && Unused(s, t) && MayLock(kind, r)
    ensures Enabled(s, Lock(t, r))
    ensures var s', ok := Step(s, Lock(t, r)), V_INIT <= s.life.word;
            && s'.life.tokens <= ids
            && Coupled(s', if ok then Incremented(s.life.word) else s.life.word, s.listenFlag, s.disconnectFlag, s.open)
            && if ok then Stands(s', t, r) else Unused(s', t)
  {
    RoomToLock(s, t, ids);
    hide Run, Inv, Incremented, L.Enabled, L.Acquired, Unused;
    LockedIs(s, t, r);
    hide Locked;
  }

  lemma LockedIs(s: State, t: nat, r: Role)
    requires Unused(s, t)
    ensures var s', ok := Locked(s, t, r), V_INIT <= s.life.word;
            && s'.life.tokens <= s.life.tokens + {t}
            && Coupled(s', if ok then Incremented(s.life.word) else s.life.word, s.listenFlag, s.disconnectFlag, s.open)
            && if ok then Stands(s', t, r) else Unused(s', t)
  {
    hide Incremented;
  }

  lemma IssueIs(kind: Kind, trace: seq<Event>, s: State, ids: set<nat>, t: nat, r: Role, how: Outcome)
    requires Reached(kind, trace, s, ids) && Stands(s, t, r) && MayIssue(r) && (how == Queued ==> s.open)
    ensures Enabled(s, Event.Issue(t, how))
    ensures var s' := Step(s, Event.Issue(t, how));
            && s'.life.tokens <= ids && Coupled(s', s.life.word, s.listenFlag, s.disconnectFlag, s.open)
            && Stands(s', t, Issued(r, how))
  {
    hide Run, Inv, Issued;
  }

  lemma RunDownIs(kind: Kind, trace: seq<Event>, s: State, ids: set<nat>, t: nat, r: Role)
    requires Reached(kind, trace, s, ids) && Stands(s, t, r) && MayRunDown(kind, r)
    ensures Enabled(s, RunDown(t))
    ensures var s' := Step(s, RunDown(t));
            && s'.life.tokens <= ids && Coupled(s', BitReset(s.life.word), s.listenFlag, s.disconnectFlag, s.open)
            && Stands(s', t, DownRole(r)) && !Active(s'.life.word)
  {
    BitResetDown(s);
    hide Run, Inv, DownRole, BitReset, Active;
  }

  lemma BitResetDown(s: State)
    requires Inv(s)
    ensures !Active(BitReset(s.life.word))
  {
    hide DisconnectOk, ListenOk, L.FinalOk, L.LogOk;
  }

  lemma TestIs(kind: Kind, trace: seq<Event>, s: State, ids: set<nat>, t: nat, already: bool)
    requires Reached(kind, trace, s, ids) && Stands(s, t, Disconnecting) && (already ==> kind == Tcp)
    ensures Enabled(s, TakeDisconnect(t, already))
    ensures var s' := Step(s, TakeDisconnect(t, already));
            && s'.life.tokens <= ids && Coupled(s', s.life.word, s.listenFlag, s.disconnectFlag || !already, s.open)
            && Stands(s', t, if !already && !s.disconnectFlag then DisconnectOwner else Leaving)
  {
    hide Run, Inv;
  }

  lemma CompleteIs(kind: Kind, trace: seq<Event>, s: State, ids: set<nat>, t: nat, op: Op, ok: bool)
    requires Reached(kind, trace, s, ids) && Stands(s, t, InFlight(op))
    ensures Enabled(s, Event.Complete(t, ok))
    ensures var s' := Step(s, Event.Complete(t, ok));
            && s'.life.tokens <= ids && Coupled(s', s.life.word, s.listenFlag, s.disconnectFlag, s.open)
            && Stands(s', t, Completing(op, ok))
  {
    hide Run, Inv;
  }

  lemma CallbackIs(kind: Kind, trace: seq<Event>, s: State, ids: set<nat>, t: nat, op: Op, ok: bool)
    requires Reached(kind, trace, s, ids) && Stands(s, t, Completing(op, ok)) && op != DisconnectOp
    ensures Enabled(s, Event.Callback(t))
    ensures var s' := Step(s, Event.Callback(t));
            && s'.life.tokens <= ids && Coupled(s', s.life.word, s.listenFlag, s.disconnectFlag, s.open)
            && Stands(s', t, Called(op, ok))
  {
    hide Run, Inv;
  }

  lemma EndIs(kind: Kind, trace: seq<Event>, s: State, ids: set<nat>, t: nat, r: Role)
    requires Reached(kind, trace, s, ids) && Stands(s, t, r) && (r.Completing? || (r.Called? && r.op != DisconnectOp))
    ensures var e := if r.op == DisconnectOp then ClearDisconnect(t) else Leave(t);
            && Enabled(s, e)
            && var s' := Step(s, e);
               && s'.life.tokens <= ids
               && Coupled(s', s.life.word, s.listenFlag, s.disconnectFlag && r.op != DisconnectOp, s.open)
               && Stands(s', t, Leaving)
  {
    hide Run, Inv;
  }

  lemma HolderIs(s: State, t: nat)
    requires Inv(s) && t in s.role
    ensures t in s.life.tokens && t !in s.life.draining && t !in s.cleared && s.life.word > 0
  {
    hide DisconnectOk, ListenOk;
    WordWhileHeld(s, t);
    assert t in s.life.tokens && s.cleared <= s.life.draining.Keys;
  }

  lemma UnlockIs(kind: Kind, trace: seq<Event>, s: State, ids: set<nat>, t: nat)
    requires Reached(kind, trace, s, ids) && Stands(s, t, Leaving)
    ensures Enabled(s, Unlock(t))
    ensures var s' := Step(s, Unlock(t));
            && s'.life.tokens <= ids && s.life.word > 0
            && Coupled(s', Decremented(s.life.word), s.listenFlag, s.disconnectFlag, s.open)
            && if Decremented(s.life.word) == 0 then Drains(s', t, false) else Unused(s', t)
  {
    hide Run, Inv, Decremented;
    HolderIs(s, t);
  }

  lemma ClearIs(kind: Kind, trace: seq<Event>, s: State, ids: set<nat>, t: nat)
    requires Reached(kind, trace, s, ids) && Drains(s, t, false)
    ensures Enabled(s, ClearListen(t))
    ensures var s' := Step(s, ClearListen(t));
            && s'.life.tokens <= ids && Coupled(s', s.life.word, false, s.disconnectFlag, s.open) && Drains(s', t, true)
  {
    hide Run, Inv;
  }

  lemma FinishIs(kind: Kind, trace: seq<Event>, s: State, ids: set<nat>, t: nat)
    requires Reached(kind, trace, s, ids) && Drains(s, t, true)
    ensures Enabled(s, Disconnected(t))
    ensures var s' := Step(s, Disconnected(t));
            && s'.life.tokens <= ids && Coupled(s', s.life.word, s.listenFlag, s.disconnectFlag, s.open)
            && Unused(s', t)
  {
    hide Run, Inv;
  }

  lemma CloseIs(kind: Kind, trace: seq<Event>, s: State, ids: set<nat>)
    requires Reached(kind, trace, s, ids) && s.open
    ensures Enabled(s, CloseHandle)
    ensures var s' := Step(s, CloseHandle);
            && s'.life.tokens <= ids
            && Coupled(s', s.life.word, s.listenFlag && kind != Tcp, s.disconnectFlag && kind != Tcp, false)
  {
    hide Run, Inv;
  }

  lemma ClaimIs(kind: Kind, trace: seq<Event>, s: State, ids: set<nat>, l: nat)
    requires Reached(kind, trace, s, ids) && l !in s.listeners && kind != PipeClient
    ensures Enabled(s, Claim(l))
    ensures var s' := Step(s, Claim(l));
            && s'.life.tokens <= ids && Coupled(s', s.life.word, true, s.disconnectFlag, s.open)
            && if s.listenFlag then l !in s'.listeners else Listens(s', l, Claimed)
  {
    hide Run, Inv;
  }

  lemma ArmIs(kind: Kind, trace: seq<Event>, s: State, ids: set<nat>, l: nat, how: Outcome)
    requires Reached(kind, trace, s, ids) && Listens(s, l, Claimed) && (how == Queued ==> s.open)
    ensures Enabled(s, Arm(l, how))
    ensures var s' := Step(s, Arm(l, how));
            && s'.life.tokens <= ids && Coupled(s', s.life.word, s.listenFlag, s.disconnectFlag, s.open)
            && Listens(s', l, if how == Queued then Armed else Failed)
  {
    hide Run, Inv;
  }

  lemma FailIs(kind: Kind, trace: seq<Event>, s: State, ids: set<nat>, l: nat)
    requires Reached(kind, trace, s, ids) && Listens(s, l, Failed)
    ensures Enabled(s, ClearFailed(l))
    ensures var s' := Step(s, ClearFailed(l));
            s'.life.tokens <= ids && Coupled(s', s.life.word, false, s.disconnectFlag, s.open) && l !in s'.listeners
  {
    hide Run, Inv;
  }

  lemma AcceptIs(kind: Kind, trace: seq<Event>, s: State, ids: set<nat>, l: nat, ok: bool)
    requires Reached(kind, trace, s, ids) && Listens(s, l, Armed)
    ensures Enabled(s, Accept(l, ok))
    ensures var s' := Step(s, Accept(l, ok));
            && s'.life.tokens <= ids && Coupled(s', s.life.word, s.listenFlag, s.disconnectFlag, s.open)
            && Listens(s', l, if ok then Accepted else Failed)
  {
    hide Run, Inv;
  }

  lemma InitIs(kind: Kind, trace: seq<Event>, s: State, ids: set<nat>, l: nat)
    requires Reached(kind, trace, s, ids) && Listens(s, l, Accepted)
    ensures Enabled(s, InitLock(l)) && s.life.word == 0
    ensures var s' := Step(s, InitLock(l));
            && s'.life.tokens <= ids && Coupled(s', V_INIT, s.listenFlag, s.disconnectFlag, s.open)
            && l !in s'.listeners
  {
    AcceptedFindsComplete(s, l);
    hide Run, Inv;
  }

  lemma AssignIs(kind: Kind, trace: seq<Event>, s: State, ids: set<nat>)
    requires Reached(kind, trace, s, ids) && kind == PipeClient
    ensures Enabled(s, AssignClient)
    ensures var s' := Step(s, AssignClient);
            && s'.life.tokens <= ids
            && Coupled(s', if s.life.word == 0 then V_INIT else s.life.word, s.listenFlag, s.disconnectFlag, true)
  {
    hide Run, Inv;
  }
}
