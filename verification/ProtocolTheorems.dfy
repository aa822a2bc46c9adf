/** What holds of every run of the server. */
module ProtocolTheorems {
  import opened Wrappers
  import opened SessionKeys
  import opened ManagerSpec
  import opened Protocol
  import opened ProtocolInvariant
  import CallSteps
  import SessionSteps
  import ManagerSteps
  import AddSteps
  import RemovalSteps
  import StartSteps

  // ---- The invariant holds in every reachable state ----

  lemma AdvanceKeeps(s: System, c: CallId)
    requires Inv(s) && CanAdvance(s, c)
    ensures Inv(DoAdvance(s, c))
  {
    hide Coherent, CapOk, PlacesOk, EverOk, CallOk, CallsOk, SessionsOk, SessionOk, Exclusive, PendingOk, NoLeak, DoAdvance;
    CallSteps.CallAndSession(s, c);
    if s.phase.transport == Stdio {
      RemovalSteps.StdioSwitchKeeps(s, c);
    } else if SwitchOf(s.calls[c]).Found? {
      SessionSteps.SetChoiceKeeps(s, c);
    } else {
      CallSteps.HttpSwitchKeeps(s, c);
    }
  }

  lemma StepKeeps(s: System, step: Step)
    requires Inv(s) && Enabled(s, step)
    ensures Inv(Apply(s, step))
  {
    hide Inv, DoStartup, DoServe, DoOpenSession, DoEndSession, DoCleanUp, DoBeginCall, DoEndCall, DoAddConnection, DoAdvance, DoClaimName, DoReserveKey, DoOpenTunnel, DoOpenPool, DoFailIo, DoFinalize, DoUnreserveKey, DoReleaseName, DoCheckEnded, DoRollBackName, DoRemoveAdded;
    match step
    case Startup(name, io) => StartSteps.StartupKeeps(s, name, io);
    case Serve(transport) => StartSteps.ServeKeeps(s, transport);
    case OpenSession(sid) => SessionSteps.OpenSessionKeeps(s, sid);
    case EndSession(sid) => SessionSteps.EndSessionKeeps(s, sid);
    case CleanUp(sid, key) => RemovalSteps.CleanUpKeeps(s, sid, key);
    case BeginCall(c, sess) => CallSteps.BeginCallKeeps(s, c, sess);
    case EndCall(c) => CallSteps.EndCallKeeps(s, c);
    case UseConnection(c, name) => CallSteps.UseConnectionKeeps(s, c, name);
    case AddConnection(c, name) => CallSteps.AddConnectionKeeps(s, c, name);
    case Advance(c) => AdvanceKeeps(s, c);
    case ClaimName(c) => SessionSteps.ClaimNameKeeps(s, c);
    case ReserveKey(c) => ManagerSteps.ReserveKeyKeeps(s, c);
    case OpenTunnel(c) => AddSteps.OpenKeeps(s, c, DoOpenTunnel(s, c));
    case OpenPool(c, configured) => AddSteps.OpenKeeps(s, c, DoOpenPool(s, c, configured));
    case FailIo(c) => AddSteps.FailIoKeeps(s, c);
    case Finalize(c, clientOk, description, serverType, pack) =>
      AddSteps.FinalizeKeeps(s, c, clientOk, description, serverType, pack);
    case UnreserveKey(c) => ManagerSteps.UnreserveKeyKeeps(s, c);
    case ReleaseName(c) => SessionSteps.ReleaseNameKeeps(s, c);
    case CheckEnded(c) => CallSteps.CheckEndedKeeps(s, c);
    case RollBackName(c) => SessionSteps.RollBackNameKeeps(s, c);
    case RemoveAdded(c) => RemovalSteps.RemoveAddedKeeps(s, c);
    case LazyClient(creates) => RemovalSteps.LazyClientKeeps(s, creates);
    case DropToolPack(c) => RemovalSteps.DropToolPackKeeps(s, c);
  }

  lemma InitialInv()
    ensures Inv(INITIAL)
  {
    assert Counted(EMPTY) == {};
    assert INITIAL.next == 0 && INITIAL.place == map[];
  }

  lemma {:induction false} RunKeeps(s: System, steps: seq<Step>)
    requires Inv(s) && Legal(s, steps)
    ensures Inv(Run(s, steps))
    decreases |steps|
  {
    hide Inv, Apply, Enabled;
    if steps != [] {
      StepKeeps(s, steps[0]);
      RunKeeps(Apply(s, steps[0]), steps[1..]);
    }
  }

  lemma ReachableInv(s: System)
    requires Reachable(s)
    ensures Inv(s)
  {
    hide Inv;
    var steps :| Legal(INITIAL, steps) && s == Run(INITIAL, steps);
    InitialInv();
    RunKeeps(INITIAL, steps);
  }

  // ---- No leak ----

  /** No part of the manager mentions the key. */
  ghost predicate Forgotten(m: Manager, key: string) {
    && key !in m.connections && key !in m.clients && key !in m.configs && key !in m.serverTypes
    && key !in m.toolPacks && key !in m.tunnelClosers && key !in m.pendingAdds && (key != "" ==> key != m.activeConn)
  }

  /** Every session call's key in flight is the session's own. */
  lemma SessionCallKey(s: System, c: CallId, sid: string, key: string)
    requires Inv(s) && c in s.calls && s.calls[c].job.Adding? && AddOf(s, c).key == key
    requires ValidId(sid) && BelongsTo(sid, key)
    ensures s.calls[c].sess == Some(sid)
  {
    hide Coherent, CapOk, PlacesOk, EverOk, CallsOk, SessionsOk, Exclusive, PendingOk, NoLeak;
    CallSteps.CallAndSession(s, c);
    BelongingIsSessionKey(sid, key);
    if s.calls[c].sess.Some? {
      OwnerOfKey(s.calls[c].sess.value, AddOf(s, c).name);
    }
  }

  /** Once a session has ended, its cleanup loop has finished and its adds have returned,
      nothing of it is left, however these steps interleaved. */
  lemma EndedSessionLeavesNothing(s: System, sid: string, key: string)
    requires Reachable(s) && Ended(s, sid) && s.sessions[sid].cleanup == {}
    requires forall c :: c in s.calls && s.calls[c].sess == Some(sid) ==> !s.calls[c].job.Adding?
    requires BelongsTo(sid, key)
    ensures Forgotten(s.m, key)
  {
    ReachableInv(s);
    hide CapOk, PlacesOk, CallsOk, Exclusive;
    SessionSteps.SessionThere(s, sid);
    assert ValidId(sid);
    BelongingIsSessionKey(sid, key);
    if key in s.m.connections {
      var c :| Removes(s, c, key);
      SessionCallKey(s, c, sid, key);
      assert false;
    }
    if key in s.m.pendingAdds {
      var c :| Reserves(s, c, key);
      SessionCallKey(s, c, sid, key);
      assert false;
    }
  }

  // ---- Conservation of pools and tunnels ----

  ghost function HolderCalls(s: System, r: Resource): set<CallId> {
    set c | c in s.calls && Holds(s, c, r)
  }

  ghost function KeysWith(s: System, r: Resource): set<string> {
    set k | k in s.m.connections && Registers(s.m, k, r)
  }

  lemma HoldersOf(s: System, r: Resource)
    requires HeldOk(s)
    ensures HolderCalls(s, r) == if r in s.place && s.place[r].HeldBy? then {s.place[r].call} else {}
  {
    forall c
      ensures c in HolderCalls(s, r) <==> r in s.place && s.place[r] == HeldBy(c)
    {
      assert Holds(s, c, r) <==> r in s.place && s.place[r] == HeldBy(c);
    }
  }

  lemma KeysOf(s: System, r: Resource)
    requires RegisteredOk(s.m, s.place) && Coherent(s.m)
    ensures KeysWith(s, r) == if r in s.place && s.place[r].RegisteredAt? then {s.place[r].key} else {}
  {
    forall k
      ensures k in KeysWith(s, r) <==> r in s.place && s.place[r] == RegisteredAt(k)
    {
      assert Registers(s.m, k, r) <==> r in s.place && s.place[r] == RegisteredAt(k);
    }
  }

  /** Every resource opened so far is held by one add, or registered under one key, or has
      been closed once; one not opened yet is nowhere. */
  lemma ExactlyOnePlace(s: System, r: Resource)
    requires Reachable(s)
    ensures |HolderCalls(s, r)| + |KeysWith(s, r)| + s.m.closed[r] == if r < s.next then 1 else 0
  {
    ReachableInv(s);
    hide CapOk, Coherent, ServingOk, StartingOk, HeldOk, RegisteredOk, HolderCalls, KeysWith;
    HoldersOf(s, r);
    KeysOf(s, r);
    assert r in s.place <==> r < s.next;
    assert s.m.closed[r] == if r in s.place && s.place[r] == Released then 1 else 0;
  }

  // ---- Coherence ----

  /** In every reachable state the side maps describe exactly the registered connections,
      and while serving the process-wide choice is one of them, so GetActiveClient has a client
      to return unless creating one fails. */
  lemma AlwaysCoherent(s: System)
    requires Reachable(s)
    ensures Coherent(s.m)
    ensures s.phase.Serving? ==> s.m.activeConn in s.m.connections && !IsSessionKey(s.m.activeConn)
    ensures s.phase.Serving? ==> ActiveClient(s.m, true).1 == Some(s.m.connections[s.m.activeConn].id)
  {
    ReachableInv(s);
    hide CapOk, PlacesOk, CallsOk, SessionsOk, Exclusive, PendingOk, NoLeak, EverOk, StartingOk;
  }

  // ---- Exclusive reservations ----

  /** Every reservation belongs to exactly one add, from its reservation section to its release
      of it, and every add in that stretch has its name reserved. */
  lemma AddsAreExclusive(s: System, key: string)
    requires Reachable(s)
    ensures forall c, d :: Reserves(s, c, key) && Reserves(s, d, key) ==> c == d
    ensures key in s.m.pendingAdds <==> exists c :: Reserves(s, c, key)
  {
    ReachableInv(s);
    ReservationParts(s);
    hide Inv, Reachable, Exclusive, PendingOk;
    OneReserver(s, key);
    forall c | Reserves(s, c, key)
      ensures key in s.m.pendingAdds
    {
      CallSteps.CallAndSession(s, c);
      ReserverIsPending(s, s.calls[c]);
    }
    if key in s.m.pendingAdds {
      PendingIsReserved(s, key);
    }
  }

  lemma ReservationParts(s: System)
    requires Inv(s)
    ensures Exclusive(s) && PendingOk(s)
  {
    hide CapOk, PlacesOk, CallsOk, SessionsOk, NoLeak, EverOk, Coherent;
  }

  lemma OneReserver(s: System, key: string)
    requires Exclusive(s)
    ensures forall c, d :: Reserves(s, c, key) && Reserves(s, d, key) ==> c == d
  {
  }

  lemma PendingIsReserved(s: System, key: string)
    requires PendingOk(s) && key in s.m.pendingAdds
    ensures exists c :: Reserves(s, c, key)
  {
  }

  lemma ReserverIsPending(s: System, call: Call)
    requires CallOk(s, call) && call.job.Adding? && Reserving(call.job.add.pc)
    ensures call.job.add.key in s.m.pendingAdds
  {
  }

  /** Until it is published, the name of an add in flight is free: the duplicate check of its
      publication never finds it taken. */
  lemma PublicationFindsNameFree(s: System, c: CallId)
    requires Reachable(s) && AddAt(s, c, Pending)
    ensures AddOf(s, c).key in s.m.pendingAdds && AddOf(s, c).key !in s.m.connections
  {
    ReachableInv(s);
    AddSteps.ReservedKeyUnregistered(s, c);
    ReserverOf(s, c);
  }

  lemma ReserverOf(s: System, c: CallId)
    requires Inv(s) && AddAt(s, c, Pending)
    ensures AddOf(s, c).key in s.m.pendingAdds
  {
    hide CapOk, PlacesOk, CallsOk, CallOk, SessionsOk, NoLeak, EverOk, Coherent, Exclusive, PendingOk, StartingOk;
    CallSteps.CallAndSession(s, c);
    ReserverIsPending(s, s.calls[c]);
  }

  /** A claimed key is neither registered nor reserved. */
  lemma ClaimedKeyIsNew(s: System, c: CallId)
    requires Exclusive(s) && PendingOk(s) && AddAt(s, c, Claimed) && s.calls[c].sess.Some?
    requires AddOf(s, c).key !in s.ever && forall k :: k in s.m.connections ==> k in s.ever
    ensures Reserve(s.m, AddOf(s, c).key).1 != AlreadyExists
  {
  }

  lemma ClaimedAdd(s: System, c: CallId)
    requires AddAt(s, c, Claimed) && CallOk(s, s.calls[c]) && s.calls[c].sess.Some?
    ensures AddOf(s, c).key !in s.ever
  {
  }

  /** An add on a freshly claimed session key is never refused as a duplicate: its reservation
      can fail for the cap alone, and its publication cannot fail. */
  lemma ClaimedKeyIsNoDuplicate(s: System, c: CallId, o: Opened)
    requires Reachable(s) && c in s.calls && s.calls[c].job.Adding? && s.calls[c].sess.Some?
    ensures AddAt(s, c, Claimed) ==> Reserve(s.m, AddOf(s, c).key).1 != AlreadyExists
    ensures AddAt(s, c, Pending) ==> Register(s.m, AddOf(s, c).key, o, false).1
  {
    hide Reachable;
    if AddAt(s, c, Claimed) {
      ReservationIsNoDuplicate(s, c);
    }
    if AddAt(s, c, Pending) {
      PublicationFindsNameFree(s, c);
    }
  }

  lemma ReservationIsNoDuplicate(s: System, c: CallId)
    requires Reachable(s) && AddAt(s, c, Claimed) && s.calls[c].sess.Some?
    ensures Reserve(s.m, AddOf(s, c).key).1 != AlreadyExists
  {
    ReachableInv(s);
    hide CapOk, PlacesOk, SessionsOk, SessionOk, CallsOk, CallOk, NoLeak, Coherent, StartingOk, Exclusive, PendingOk, Reachable, Reserve;
    CallSteps.CallAndSession(s, c);
    ClaimedAdd(s, c);
    ClaimedKeyIsNew(s, c);
  }

  lemma RefusedOnlyWhenGone(s: System, c: CallId)
    requires CanAdvance(s, c) && s.calls[c].job.Adding? && CallOk(s, s.calls[c])
    requires SwitchSection(s, c, SwitchOf(s.calls[c])).1.Refused?
    ensures AddOf(s, c).key !in s.m.connections || (s.calls[c].sess.Some? && Ended(s, s.calls[c].sess.value))
  {
  }

  lemma StdioAddRegistered(s: System, c: CallId)
    requires CanAdvance(s, c) && s.calls[c].job.Adding? && CallOk(s, s.calls[c]) && s.calls[c].sess.None?
    ensures AddOf(s, c).key in s.m.connections
  {
  }

  /** Activation is refused only to a session that has ended, and never over stdio. */
  lemma ActivationFailsOnlyAfterEnd(s: System, c: CallId)
    requires Reachable(s) && CanAdvance(s, c) && s.calls[c].job.Adding?
    requires SwitchSection(s, c, SwitchOf(s.calls[c])).1.Refused?
    ensures s.calls[c].sess.Some? && Ended(s, s.calls[c].sess.value)
  {
    ReachableInv(s);
    hide CapOk, PlacesOk, SessionsOk, SessionOk, CallsOk, CallOk, NoLeak, Coherent, StartingOk, Exclusive, PendingOk, EverOk, Reachable, SwitchSection;
    CallSteps.CallAndSession(s, c);
    RefusedOnlyWhenGone(s, c);
    if s.calls[c].sess.None? {
      StdioAddRegistered(s, c);
    } else if !Ended(s, s.calls[c].sess.value) {
      CallSteps.ValidSession(s, s.calls[c].sess.value);
      CallSteps.ActivatingKeyRegistered(s, c, s.calls[c].sess.value);
    }
  }
}
