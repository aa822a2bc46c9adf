/** The invariant under the I/O of an add, its publication, and every removal. */
module AddSteps {
  import opened Wrappers
  import opened SessionKeys
  import opened ManagerSpec
  import opened Protocol
  import opened ProtocolInvariant
  import opened Frames
  import opened CallSteps
  import opened SessionSteps
  import opened ManagerSteps
  import opened PlaceSteps

  // ---- Opening and failing: the call, its resources and the close log change ----

  /** From s to t nothing changes but one call, the close log and where resources are. */
  ghost predicate ResourcesOnly(s: System, t: System) {
    t == s.(m := s.m.(closed := t.m.closed), calls := t.calls, next := t.next, place := t.place)
  }

  lemma ResourceFrame(s: System, t: System)
    requires s.phase.Serving? && ResourcesOnly(s, t)
    ensures TouchesOnly(s, t, {}) && StdioKeeps(s, t)
    ensures EverOk(s) ==> EverOk(t)
    ensures Coherent(s.m) ==> Coherent(t.m)
    ensures CapOk(s.m) ==> CapOk(t.m)
  {
  }

  lemma ResourceStep(s: System, t: System, c: CallId)
    requires Inv(s) && AddAt(s, c, Pending) && ResourcesOnly(s, t) && OnlyCall(s, t, c)
    requires c in t.calls && CallOk(t, t.calls[c]) && PlacesOk(t)
    requires t.calls[c].job.Adding? && AddOf(t, c).key == AddOf(s, c).key && Reserving(AddOf(t, c).pc)
    ensures Inv(t)
  {
    hide Coherent, CapOk, EverOk, CallOk, CallsOk, SessionsOk, SessionOk, TouchesOnly, StdioKeeps, Exclusive, PlacesOk, PendingOk, NoLeak;
    CallAndSession(s, c);
    ResourceFrame(s, t);
    PendingStays(s, t, c);
    NoLeakStays(s, t, c);
    Assemble(s, t, c, {});
  }

  lemma OpeningCall(s: System, c: CallId, t: System)
    requires AddAt(s, c, Pending) && CallOk(s, s.calls[c])
    requires (CanOpenTunnel(s, c) && t == DoOpenTunnel(s, c)) ||
             (CanOpenPool(s, c) && exists configured :: t == DoOpenPool(s, c, configured))
    ensures ResourcesOnly(s, t) && OnlyCall(s, t, c) && c in t.calls && CallOk(t, t.calls[c])
    ensures t.next == s.next + 1 && t.place == s.place[s.next := HeldBy(c)] && t.m == s.m
    ensures t.calls[c].job.Adding? && AddOf(t, c).key == AddOf(s, c).key && AddOf(t, c).pc == Pending
  {
  }

  lemma OpeningHoldings(s: System, c: CallId, t: System)
    requires AddAt(s, c, Pending) && PlacesOk(s)
    requires (CanOpenTunnel(s, c) && t == DoOpenTunnel(s, c)) ||
             (CanOpenPool(s, c) && exists configured :: t == DoOpenPool(s, c, configured))
    ensures SamePlacesOfOthers(s, t, c) && HeldApart(t)
    ensures forall r: Resource :: Holds(t, c, r) <==> Holds(s, c, r) || r == s.next
  {
    if AddOf(s, c).tunnel.Some? {
      assert Holds(s, c, AddOf(s, c).tunnel.value);
    }
    assert Apart(AddOf(s, c));
    assert Apart(AddOf(t, c));
  }

  lemma OpenKeeps(s: System, c: CallId, t: System)
    requires Inv(s) && AddAt(s, c, Pending)
    requires (CanOpenTunnel(s, c) && t == DoOpenTunnel(s, c)) ||
             (CanOpenPool(s, c) && exists configured :: t == DoOpenPool(s, c, configured))
    ensures Inv(t)
  {
    hide Coherent, CapOk, EverOk, CallOk, CallsOk, SessionsOk, SessionOk, Exclusive, PlacesOk, PendingOk, NoLeak, HeldApart, DoOpenTunnel, DoOpenPool, OnlyCall, SamePlacesOfOthers;
    CallAndSession(s, c);
    OpeningCall(s, c, t);
    OpeningHoldings(s, c, t);
    OpeningPlaces(s, t, c);
    ResourceStep(s, t, c);
  }

  lemma FailingCall(s: System, c: CallId)
    requires AddAt(s, c, Pending) && CallOk(s, s.calls[c])
    ensures var t := DoFailIo(s, c);
            && ResourcesOnly(s, t) && OnlyCall(s, t, c) && c in t.calls && CallOk(t, t.calls[c])
            && t.calls[c].job.Adding? && AddOf(t, c).key == AddOf(s, c).key && AddOf(t, c).pc == Unpending(false)
  {
  }

  lemma FailingHoldings(s: System, c: CallId)
    requires AddAt(s, c, Pending) && HeldApart(s)
    ensures var t := DoFailIo(s, c);
            SamePlacesOfOthers(s, t, c) && HeldApart(t) && forall r: Resource :: !Holds(t, c, r)
  {
  }

  lemma FailIoKeeps(s: System, c: CallId)
    requires Inv(s) && AddAt(s, c, Pending)
    ensures Inv(DoFailIo(s, c))
  {
    hide Coherent, CapOk, EverOk, CallOk, CallsOk, SessionsOk, SessionOk, Exclusive, PendingOk, NoLeak, HeldApart, HeldOk, RegisteredOk, ClosedOk, AllPlaced, RegisteredApart, OnlyCall, ResourcesOnly, SamePlacesOfOthers, Holds, CloseHeld;
    var t := DoFailIo(s, c);
    CallAndSession(s, c);
    FailingCall(s, c);
    FailingHoldings(s, c);
    FailingPlaces(s, t, c);
    ResourceStep(s, t, c);
  }

  // ---- Publication ----

  /** The late duplicate check is never taken: a reserved key is not registered. */
  lemma ReservedKeyUnregistered(s: System, c: CallId)
    requires Inv(s) && AddAt(s, c, Pending)
    ensures AddOf(s, c).key !in s.m.connections && AddOf(s, c).key !in s.ever && AddOf(s, c).key in s.m.pendingAdds
  {
    hide Coherent, CapOk, CallsOk, SessionsOk, SessionOk, Exclusive, PendingOk, NoLeak, PlacesOk;
    CallAndSession(s, c);
    assert AddOk(s, s.calls[c].sess, AddOf(s, c));
  }

  function OpenedBy(s: System, c: CallId, clientOk: bool, description: string, serverType: ServerType, pack: string): Opened
    requires CanFinalize(s, c)
  {
    Opened(AddOf(s, c).pool.value, AddOf(s, c).tunnel, clientOk, description, serverType, pack)
  }

  /** Publication, spelled out for a key that is free. */
  ghost predicate Published(s: System, t: System, c: CallId, o: Opened)
    requires c in s.calls && s.calls[c].job.Adding?
  {
    var a := AddOf(s, c);
    t == s.(m := Publish(s.m, a.key, o),
            ever := s.ever[a.key := o.pool],
            place := Settle(s.place, HeldOf(Some(o.pool), o.tunnel), RegisteredAt(a.key)),
            calls := s.calls[c := s.calls[c].(job := Adding(a.(pc := Unpending(true), tunnel := None, pool := None)))])
  }

  lemma FinalizeShape(s: System, c: CallId, clientOk: bool, description: string, serverType: ServerType, pack: string)
    requires CanFinalize(s, c) && AddOf(s, c).key !in s.m.connections
    ensures Published(s, DoFinalize(s, c, clientOk, description, serverType, pack), c, OpenedBy(s, c, clientOk, description, serverType, pack))
  {
  }

  lemma PublishFrame(s: System, t: System, c: CallId, o: Opened)
    requires CanFinalize(s, c) && s.phase.Serving? && Published(s, t, c, o)
    requires s.phase.transport == Http ==> IsSessionKey(AddOf(s, c).key)
    ensures TouchesOnly(s, t, {AddOf(s, c).key}) && StdioKeeps(s, t) && OnlyCall(s, t, c)
  {
  }

  lemma PublishCall(s: System, t: System, c: CallId, o: Opened)
    requires CanFinalize(s, c) && Published(s, t, c, o) && CallOk(s, s.calls[c])
    ensures CallOk(t, t.calls[c]) && KeepsKey(s, t, c)
    ensures s.phase.transport == Http ==> IsSessionKey(AddOf(s, c).key)
  {
    if s.calls[c].sess.Some? {
      OwnKeyBelongs(s.calls[c].sess.value, AddOf(s, c).name);
    }
  }

  lemma PublishEver(s: System, t: System, c: CallId, o: Opened)
    requires CanFinalize(s, c) && Published(s, t, c, o) && EverOk(s) && AddOf(s, c).key in s.m.pendingAdds
    ensures EverOk(t)
  {
  }

  lemma PublishCap(m: Manager, key: string, o: Opened)
    requires CapOk(m) && key in m.pendingAdds
    requires IsSessionKey(key) ==> o.pool.maxOpen <= SESSION_CONN_MAX_OPEN
    ensures CapOk(Publish(m, key, o))
  {
    assert Counted(Publish(m, key, o)) == Counted(m);
  }

  lemma PublishNoLeak(s: System, t: System, c: CallId, o: Opened)
    requires CanFinalize(s, c) && Published(s, t, c, o) && NoLeak(s)
    ensures NoLeak(t)
  {
    NoLeakStays(s, t, c);
  }

  lemma PublishPlaces(s: System, t: System, c: CallId, o: Opened)
    requires CanFinalize(s, c) && Published(s, t, c, o) && PlacesOk(s) && Coherent(s.m)
    requires AddOf(s, c).pool == Some(o.pool) && AddOf(s, c).tunnel == o.tunnel && AddOf(s, c).key !in s.m.connections
    ensures PlacesOk(t)
  {
    hide Coherent, RegisteredOk, ClosedOk, AllPlaced, RegisteredApart, HeldOk, Publish;
    PublishingPlaces(s, t, c, o);
  }

  lemma PendingPool(s: System, c: CallId)
    requires CanFinalize(s, c) && CallOk(s, s.calls[c])
    ensures IsSessionKey(AddOf(s, c).key) ==> AddOf(s, c).pool.value.maxOpen <= SESSION_CONN_MAX_OPEN
  {
  }

  lemma ActiveStays(m: Manager, key: string, o: Opened)
    requires m.activeConn in m.connections
    ensures Publish(m, key, o).activeConn in Publish(m, key, o).connections
  {
  }

  lemma FinalizeKeeps(s: System, c: CallId, clientOk: bool, description: string, serverType: ServerType, pack: string)
    requires Inv(s) && CanFinalize(s, c)
    ensures Inv(DoFinalize(s, c, clientOk, description, serverType, pack))
  {
    hide Coherent, CapOk, EverOk, CallOk, CallsOk, SessionsOk, SessionOk, Exclusive, PendingOk, NoLeak, PlacesOk, TouchesOnly, StdioKeeps, KeepsKey, OnlyCall, DoFinalize, Publish;
    var t, a := DoFinalize(s, c, clientOk, description, serverType, pack), AddOf(s, c);
    var o := OpenedBy(s, c, clientOk, description, serverType, pack);
    CallAndSession(s, c);
    ReservedKeyUnregistered(s, c);
    FinalizeShape(s, c, clientOk, description, serverType, pack);
    PublishCall(s, t, c, o);
    PublishFrame(s, t, c, o);
    PublishEver(s, t, c, o);
    PendingPool(s, c);
    PublishCap(s.m, a.key, o);
    PublishCoherent(s.m, a.key, o);
    ActiveStays(s.m, a.key, o);
    PublishNoLeak(s, t, c, o);
    PublishPlaces(s, t, c, o);
    PublishReservations(s, t, c, o);
    OthersHaveOtherKeys(s, c);
    Assemble(s, t, c, {a.key});
  }

  lemma PublishReservations(s: System, t: System, c: CallId, o: Opened)
    requires CanFinalize(s, c) && Published(s, t, c, o) && PendingOk(s)
    ensures PendingOk(t)
  {
    PendingStays(s, t, c);
  }
}
