/** The invariant under removals, process-wide switches and the small manager updates. */
module RemovalSteps {
  import opened SessionKeys
  import opened ManagerSpec
  import opened Protocol
  import opened ProtocolInvariant
  import opened Frames
  import opened CallSteps
  import opened SessionSteps
  import opened ManagerSteps
  import opened PlaceSteps

  // ---- A key of an ended session goes ----

  ghost predicate KeyGone(s: System, t: System, key: string) {
    t == s.(m := TearDown(s.m, key), place := Settle(s.place, RegisteredResources(s.m, key), Released),
            sessions := t.sessions, calls := t.calls)
  }

  ghost predicate SameConns(s: System, t: System) {
    && t.sessions.Keys == s.sessions.Keys
    && forall x :: x in s.sessions ==>
         t.sessions[x].conn == s.sessions[x].conn && t.sessions[x].slots == s.sessions[x].slots
  }

  lemma GoneFrame(s: System, t: System, key: string)
    requires KeyGone(s, t, key) && SameConns(s, t) && s.phase == Serving(Http) && IsSessionKey(key)
    ensures TouchesOnly(s, t, {}) && StdioKeeps(s, t)
  {
  }

  lemma GoneEver(s: System, t: System, key: string, sid: string)
    requires KeyGone(s, t, key) && SameConns(s, t) && s.phase == Serving(Http)
    requires Ended(s, sid) && ValidId(sid) && BelongsTo(sid, key) && EverOk(s)
    ensures EverOk(t)
  {
    BelongingIsSessionKey(sid, key);
    forall x, k | ValidId(x) && BelongsTo(x, k) && (k in t.ever || k in t.m.pendingAdds)
      ensures x in t.sessions && k in t.sessions[x].slots && (!Ended(t, x) && k in t.ever ==> k in t.m.connections)
    {
      if k == key {
        BelongsToOneSession(x, sid, key);
      }
    }
  }

  lemma GoneManager(m: Manager, key: string)
    requires Coherent(m) && CapOk(m) && m.activeConn in m.connections && IsSessionKey(key)
    ensures var t := TearDown(m, key); Coherent(t) && CapOk(t) && t.activeConn in t.connections
  {
    TearDownCoherent(m, key);
    SubsetSize(Counted(TearDown(m, key)), Counted(m));
  }

  /** After the removal, what else the session has registered is still due for removal. */
  lemma GoneNoLeak(s: System, t: System, c: CallId, key: string)
    requires KeyGone(s, t, key) && SameConns(s, t) && NoLeak(s) && OnlyCall(s, t, c) && c in t.calls
    requires forall k :: k != key ==> !Removes(s, c, k) || Removes(t, c, k)
    requires forall x, k :: x in s.sessions && k in s.sessions[x].cleanup && k != key ==> k in t.sessions[x].cleanup
    ensures NoLeak(t)
  {
    hide SessionKey, IsSessionKey, BelongsTo, ValidId;
    forall x, k | Ended(t, x) && ValidId(x) && BelongsTo(x, k) && k in t.m.connections
      ensures k in t.sessions[x].cleanup || exists d :: Removes(t, d, k)
    {
      if k !in t.sessions[x].cleanup {
        var d :| Removes(s, d, k);
        assert Removes(t, d, k);
      }
    }
  }

  lemma GoneStep(s: System, t: System, c: CallId, key: string, sid: string)
    requires Inv(s) && s.phase == Serving(Http) && KeyGone(s, t, key) && SameConns(s, t) && OnlyCall(s, t, c)
    requires Ended(s, sid) && ValidId(sid) && BelongsTo(sid, key)
    requires forall x :: x in t.sessions ==> t.sessions[x] == s.sessions[x] || SessionOk(t, x, t.sessions[x])
    requires c in t.calls ==> CallOk(t, t.calls[c]) || (c in s.calls && t.calls[c] == s.calls[c])
    requires KeepsKey(s, t, c)
    requires forall k :: Reserves(s, c, k) ==> Reserves(t, c, k)
    requires NoLeak(t) && HeldApart(t) && forall d: CallId, r: Resource :: Holds(t, d, r) <==> Holds(s, d, r)
    ensures Inv(t)
  {
    hide Coherent, CapOk, EverOk, CallOk, CallsOk, SessionsOk, SessionOk, Exclusive, PendingOk, NoLeak, PlacesOk, TouchesOnly, StdioKeeps, KeepsKey, TearDown, HeldApart, Holds;
    BelongingIsSessionKey(sid, key);
    GoneFrame(s, t, key);
    GoneEver(s, t, key, sid);
    GoneManager(s.m, key);
    SameReservations(s.m, key);
    PendingStays(s, t, c);
    RemovingPlaces(s, t, key);
    Assemble(s, t, c, {});
  }

  lemma SameReservations(m: Manager, key: string)
    ensures TearDown(m, key).pendingAdds == m.pendingAdds
  {
  }

  // ---- The add removes what it registered ----

  lemma RemovingCall(s: System, c: CallId)
    requires CanRemoveAdded(s, c) && CallOk(s, s.calls[c])
    ensures s.calls[c].sess.Some? && s.phase.transport == Http
    ensures Ended(s, s.calls[c].sess.value) && AddOf(s, c).key == SessionKey(s.calls[c].sess.value, AddOf(s, c).name)
    ensures HeldOf(AddOf(s, c).pool, AddOf(s, c).tunnel) == {}
  {
  }

  lemma IdleAfterwards(s: System, t: System, c: CallId)
    requires c in s.calls && CallOk(s, s.calls[c])
    requires c in t.calls && t.calls[c] == s.calls[c].(job := Idle)
    requires t.phase == s.phase && t.ever == s.ever && t.sessions == s.sessions
    ensures CallOk(t, t.calls[c]) && KeepsKey(s, t, c)
  {
  }

  lemma RemoveAddedShape(s: System, c: CallId)
    requires CanRemoveAdded(s, c) && HeldOf(AddOf(s, c).pool, AddOf(s, c).tunnel) == {} && HeldApart(s)
    ensures var t := DoRemoveAdded(s, c);
            && KeyGone(s, t, AddOf(s, c).key) && t.sessions == s.sessions && OnlyCall(s, t, c)
            && c in t.calls && t.calls[c] == s.calls[c].(job := Idle)
            && HeldApart(t) && (forall d: CallId, r: Resource :: Holds(t, d, r) <==> Holds(s, d, r))
            && (forall k :: !Reserves(s, c, k))
            && (forall k :: k != AddOf(s, c).key ==> !Removes(s, c, k))
  {
    var t := DoRemoveAdded(s, c);
    forall d | d in t.calls && t.calls[d].job.Adding?
      ensures Apart(t.calls[d].job.add)
    {
      assert Apart(s.calls[d].job.add);
    }
  }

  lemma RemoveAddedKeeps(s: System, c: CallId)
    requires Inv(s) && CanRemoveAdded(s, c)
    ensures Inv(DoRemoveAdded(s, c))
  {
    hide Coherent, CapOk, EverOk, CallOk, CallsOk, SessionsOk, SessionOk, Exclusive, PendingOk, NoLeak, TouchesOnly, StdioKeeps, KeepsKey, TearDown, HeldOk, RegisteredOk, ClosedOk, AllPlaced, HeldApart, RegisteredApart, DoRemoveAdded, OnlyCall, KeyGone;
    var t, a := DoRemoveAdded(s, c), AddOf(s, c);
    CallAndSession(s, c);
    RemovingCall(s, c);
    var sid := s.calls[c].sess.value;
    ValidSession(s, sid);
    OwnKeyBelongs(sid, a.name);
    RemoveAddedShape(s, c);
    KeyGonePhase(s, t, a.key);
    IdleAfterwards(s, t, c);
    GoneNoLeak(s, t, c, a.key);
    GoneStep(s, t, c, a.key, sid);
  }

  lemma KeyGonePhase(s: System, t: System, key: string)
    requires KeyGone(s, t, key)
    ensures t.phase == s.phase && t.ever == s.ever && t.next == s.next
  {
  }

  // ---- The session's cleanup loop removes a key ----

  lemma CleanUpShape(s: System, sid: string, key: string)
    requires CanCleanUp(s, sid, key) && HeldApart(s)
    ensures var t := DoCleanUp(s, sid, key);
            && KeyGone(s, t, key) && t.calls == s.calls && SameConns(s, t) && HeldApart(t)
            && t.sessions == s.sessions[sid := s.sessions[sid].(cleanup := s.sessions[sid].cleanup - {key})]
            && (forall d: CallId, r: Resource :: Holds(t, d, r) <==> Holds(s, d, r))
  {
    var t := DoCleanUp(s, sid, key);
    forall d | d in t.calls && t.calls[d].job.Adding?
      ensures Apart(t.calls[d].job.add)
    {
      assert Apart(s.calls[d].job.add);
    }
  }

  lemma CleanUpSession(s: System, sid: string, key: string)
    requires CanCleanUp(s, sid, key) && SessionOk(s, sid, s.sessions[sid])
    ensures Ended(s, sid) && ValidId(sid) && BelongsTo(sid, key)
    ensures var t := DoCleanUp(s, sid, key); SessionOk(t, sid, t.sessions[sid])
  {
  }

  lemma CleanUpNoLeak(s: System, sid: string, key: string)
    requires NoLeak(s) && CanCleanUp(s, sid, key)
    ensures NoLeak(DoCleanUp(s, sid, key))
  {
    hide SessionKey, IsSessionKey, BelongsTo, ValidId;
    var t := DoCleanUp(s, sid, key);
    forall x, k | Ended(t, x) && ValidId(x) && BelongsTo(x, k) && k in t.m.connections
      ensures k in t.sessions[x].cleanup || exists d :: Removes(t, d, k)
    {
      if k !in t.sessions[x].cleanup {
        var d :| Removes(s, d, k);
        assert Removes(t, d, k);
      }
    }
  }

  lemma CleanUpKeeps(s: System, sid: string, key: string)
    requires Inv(s) && CanCleanUp(s, sid, key)
    ensures Inv(DoCleanUp(s, sid, key))
  {
    hide Coherent, CapOk, EverOk, CallOk, CallsOk, SessionsOk, SessionOk, Exclusive, PendingOk, NoLeak, TearDown, HeldOk, RegisteredOk, ClosedOk, AllPlaced, HeldApart, RegisteredApart, DoCleanUp, KeyGone, SameConns;
    var t := DoCleanUp(s, sid, key);
    SessionThere(s, sid);
    CleanUpSession(s, sid, key);
    CleanUpShape(s, sid, key);
    KeyGonePhase(s, t, key);
    CleanUpNoLeak(s, sid, key);
    GoneStep(s, t, 0, key, sid);
  }

  // ---- Steps that touch only clients, tool packs or the process-wide choice ----

  ghost predicate MinorOnly(s: System, t: System) {
    t == s.(m := s.m.(clients := t.m.clients, toolPacks := t.m.toolPacks, activeConn := t.m.activeConn), calls := t.calls)
  }

  lemma MinorFrame(s: System, t: System)
    requires s.phase.Serving? && MinorOnly(s, t)
    ensures TouchesOnly(s, t, {}) && StdioKeeps(s, t)
    ensures EverOk(s) ==> EverOk(t)
    ensures CapOk(s.m) ==> CapOk(t.m)
  {
  }

  lemma MinorStep(s: System, t: System, c: CallId)
    requires Inv(s) && s.phase.Serving? && MinorOnly(s, t) && OnlyCall(s, t, c)
    requires c in t.calls ==> CallOk(t, t.calls[c]) || (c in s.calls && t.calls[c] == s.calls[c])
    requires KeepsKey(s, t, c) && KeepsDuties(s, t, c)
    requires Coherent(t.m) && t.m.activeConn in t.m.connections
    ensures Inv(t)
  {
    hide Coherent, CapOk, EverOk, CallOk, CallsOk, SessionsOk, SessionOk, Exclusive, PendingOk, NoLeak, PlacesOk, TouchesOnly, StdioKeeps, KeepsKey;
    MinorFrame(s, t);
    PendingStays(s, t, c);
    NoLeakStays(s, t, c);
    PlacesStay(s, t);
    Assemble(s, t, c, {});
  }

  lemma StdioSwitchCall(s: System, c: CallId)
    requires CanAdvance(s, c) && CallOk(s, s.calls[c]) && s.phase == Serving(Stdio) && EverOk(s)
    ensures var t := DoAdvance(s, c);
            && MinorOnly(s, t) && OnlyCall(s, t, c) && CallOk(t, t.calls[c]) && KeepsKey(s, t, c) && KeepsDuties(s, t, c)
            && t.m.toolPacks == s.m.toolPacks && t.m.clients == s.m.clients
            && (t.m.activeConn == s.m.activeConn || (t.m.activeConn in s.m.connections && !IsSessionKey(t.m.activeConn)))
  {
    hide IsSessionKey, BelongsTo, SessionKey, ValidId;
    var sw := SwitchOf(s.calls[c]);
    if s.calls[c].job.Adding? && sw.Begin? {
      assert sw.name == AddOf(s, c).key;
      assert AddOf(s, c).key in s.m.connections;
    }
  }

  lemma StdioSwitchKeeps(s: System, c: CallId)
    requires Inv(s) && CanAdvance(s, c) && s.phase == Serving(Stdio)
    ensures Inv(DoAdvance(s, c))
  {
    hide CapOk, EverOk, CallOk, CallsOk, SessionsOk, SessionOk, Exclusive, PendingOk, NoLeak, PlacesOk, KeepsKey, KeepsDuties, OnlyCall, DoAdvance;
    CallAndSession(s, c);
    StdioSwitchCall(s, c);
    MinorStep(s, DoAdvance(s, c), c);
  }

  lemma LazyClientKeeps(s: System, creates: bool)
    requires Inv(s) && s.phase.Serving?
    ensures Inv(s.(m := ActiveClient(s.m, creates).0))
  {
    hide CapOk, EverOk, CallOk, CallsOk, SessionsOk, SessionOk, Exclusive, PendingOk, NoLeak, PlacesOk;
    MinorStep(s, s.(m := ActiveClient(s.m, creates).0), 0);
  }

  lemma DropToolPackKeeps(s: System, c: CallId)
    requires Inv(s) && c in s.calls
    ensures Inv(s.(m := DropPack(s.m, s.calls[c].pin)))
  {
    hide CapOk, EverOk, CallOk, CallsOk, SessionsOk, SessionOk, Exclusive, PendingOk, NoLeak, PlacesOk;
    CallAndSession(s, c);
    MinorStep(s, s.(m := DropPack(s.m, s.calls[c].pin)), 0);
  }
}
