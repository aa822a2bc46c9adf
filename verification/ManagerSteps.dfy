/** The invariant under the manager's lock sections: reserving, un-reserving, publishing and
    removing connections. */
module ManagerSteps {
  import opened SessionKeys
  import opened ManagerSpec
  import opened Protocol
  import opened ProtocolInvariant
  import opened Frames
  import opened CallSteps
  import opened SessionSteps

  /** The parts that hold by frame, for a step that may change anything at `keys`. */
  lemma Assemble(s: System, t: System, c: CallId, keys: set<string>)
    requires Inv(s) && s.phase.Serving? && OnlyCall(s, t, c)
    requires TouchesOnly(s, t, keys) && StdioKeeps(s, t) && t.phase == s.phase
    requires forall x :: x in t.sessions ==> (x in s.sessions && t.sessions[x] == s.sessions[x]) || SessionOk(t, x, t.sessions[x])
    requires c in t.calls ==>
               CallOk(t, t.calls[c]) ||
               (c in s.calls && t.calls[c] == s.calls[c] && (InFlight(s.calls[c]) ==> s.calls[c].job.add.key !in keys))
    requires forall d :: d in s.calls && d != c && InFlight(s.calls[d]) ==> s.calls[d].job.add.key !in keys
    requires KeepsKey(s, t, c)
    requires Coherent(t.m) && t.m.activeConn in t.m.connections && CapOk(t.m)
    requires PlacesOk(t) && EverOk(t) && PendingOk(t) && NoLeak(t)
    ensures Inv(t)
  {
    hide CallsOk, SessionsOk, SessionOk, CallOk, EverOk, NoLeak, Exclusive, Coherent, CapOk, TouchesOnly, PlacesOk, PendingOk, InFlight, StdioKeeps;
    SessionsOnlyOverHttp(s);
    CallsStay(s, t, keys);
    SessionsStay(s, t, keys);
    ExclusiveStays(s, t, c);
  }

  lemma SessionsOnlyOverHttp(s: System)
    requires Inv(s) && s.phase.Serving?
    ensures s.phase.transport == Http || s.sessions == map[]
  {
    hide Coherent, CapOk, PlacesOk, PendingOk, NoLeak, CallsOk, SessionsOk, Exclusive;
  }

  // ---- Reserving a key in the manager ----

  /** Reserving keeps the process-wide cap. */
  lemma ReserveCap(m: Manager, key: string)
    requires CapOk(m) && Reserve(m, key).1 == Reserved
    ensures CapOk(Reserve(m, key).0)
  {
    hide IsSessionKey, SessionNames;
    var names := m.connections.Keys + m.pendingAdds;
    assert m.connections.Keys + (m.pendingAdds + {key}) == names + {key};
    CountOne(names, key);
  }

  lemma ReserveFrame(s: System, c: CallId)
    requires AddAt(s, c, Claimed) && s.phase.Serving? && Reserve(s.m, AddOf(s, c).key).1 == Reserved
    requires s.phase.transport == Http ==> IsSessionKey(AddOf(s, c).key)
    ensures var t, a := DoReserveKey(s, c), AddOf(s, c);
            && TouchesOnly(s, t, {a.key}) && StdioKeeps(s, t) && OnlyCall(s, t, c)
            && t.sessions == s.sessions && t.calls == s.calls[c := s.calls[c].(job := Adding(a.(pc := Pending)))]
  {
  }

  lemma ReserveEver(s: System, c: CallId)
    requires EverOk(s) && AddAt(s, c, Claimed) && Reserve(s.m, AddOf(s, c).key).1 == Reserved
    requires CallOk(s, s.calls[c])
    requires s.calls[c].sess.Some? ==> ValidId(s.calls[c].sess.value)
    ensures EverOk(DoReserveKey(s, c))
  {
    hide SwitchOk, ActivationOk;
    var a := AddOf(s, c);
    if s.calls[c].sess.Some? {
      OwnerOfKey(s.calls[c].sess.value, a.name);
    } else {
      forall sid | BelongsTo(sid, a.key)
        ensures false
      {
        BelongingIsSessionKey(sid, a.key);
      }
    }
  }

  lemma ReserveCall(s: System, c: CallId)
    requires EverOk(s) && AddAt(s, c, Claimed) && Reserve(s.m, AddOf(s, c).key).1 == Reserved && CallOk(s, s.calls[c])
    ensures CallOk(DoReserveKey(s, c), DoReserveKey(s, c).calls[c])
  {
  }

  /** A key the manager lets an add reserve is in no other add's hands. */
  lemma ReservableKeyIsFree(s: System, c: CallId)
    requires CallsOk(s) && Exclusive(s) && EverOk(s) && AddAt(s, c, Claimed)
    requires Reserve(s.m, AddOf(s, c).key).1 == Reserved
    ensures forall d :: d in s.calls && d != c && InFlight(s.calls[d]) ==> s.calls[d].job.add.key != AddOf(s, c).key
  {
    hide SwitchOk, ActivationOk, OwnOrShared;
    assert CallOk(s, s.calls[c]);
    if s.calls[c].sess.None? {
      forall d | d in s.calls && d != c && InFlight(s.calls[d])
        ensures s.calls[d].job.add.key != AddOf(s, c).key
      {
        assert CallOk(s, s.calls[d]);
      }
    }
  }

  lemma ReserveQuiet(s: System, c: CallId)
    requires AddAt(s, c, Claimed) && CallOk(s, s.calls[c]) && Reserve(s.m, AddOf(s, c).key).1 != Reserved
    ensures var t := DoReserveKey(s, c);
            t == s.(calls := t.calls) && OnlyCall(s, t, c) && CallOk(s, t.calls[c]) && KeepsDuties(s, t, c) && KeepsKey(s, t, c)
  {
  }

  lemma ClaimedCall(s: System, c: CallId)
    requires AddAt(s, c, Claimed) && CallOk(s, s.calls[c])
    ensures s.phase.transport == Http ==> IsSessionKey(AddOf(s, c).key)
    ensures AddOf(s, c).pool.None? && AddOf(s, c).tunnel.None?
  {
    if s.calls[c].sess.Some? {
      OwnKeyBelongs(s.calls[c].sess.value, AddOf(s, c).name);
    }
  }

  lemma ReserveKeyKeeps(s: System, c: CallId)
    requires Inv(s) && AddAt(s, c, Claimed)
    ensures Inv(DoReserveKey(s, c))
  {
    hide Coherent, CapOk, EverOk, CallOk, CallsOk, SessionsOk, SessionOk, TouchesOnly, Exclusive, InFlight, Reserve, PlacesOk, PendingOk, NoLeak;
    CallAndSession(s, c);
    ClaimedCall(s, c);
    var t, a := DoReserveKey(s, c), AddOf(s, c);
    if Reserve(s.m, a.key).1 == Reserved {
      assert s.calls[c].sess.Some? ==> ValidId(s.calls[c].sess.value) by {
        if s.calls[c].sess.Some? {
          ValidSession(s, s.calls[c].sess.value);
        }
      }
      ReserveFrame(s, c);
      ReserveShape(s.m, a.key);
      ReserveCap(s.m, a.key);
      ReserveEver(s, c);
      ReserveCall(s, c);
      ReservableKeyIsFree(s, c);
      PendingStays(s, t, c);
      NoLeakStays(s, t, c);
      PlacesStay(s, t);
      Assemble(s, t, c, {a.key});
    } else {
      hide DoReserveKey, OnlyCall, KeepsDuties, KeepsKey;
      ReserveQuiet(s, c);
      OnlyCallChanges(s, t, c);
    }
  }

  lemma ReserveShape(m: Manager, key: string)
    requires Reserve(m, key).1 == Reserved
    ensures Reserve(m, key).0 == m.(pendingAdds := m.pendingAdds + {key})
    ensures Coherent(m) ==> Coherent(Reserve(m, key).0)
  {
  }

  // ---- Dropping a reservation ----

  lemma SubsetSize<T>(a: set<T>, b: set<T>)
    requires a <= b
    ensures |a| <= |b|
  {
    assert b == a + (b - a);
  }

  lemma UnreserveCap(m: Manager, key: string)
    requires CapOk(m)
    ensures CapOk(Unreserve(m, key))
    ensures Coherent(m) ==> Coherent(Unreserve(m, key))
  {
    SubsetSize(Counted(Unreserve(m, key)), Counted(m));
  }

  lemma UnreserveFrame(s: System, c: CallId)
    requires CanUnreserveKey(s, c) && s.phase.Serving?
    requires s.phase.transport == Http ==> IsSessionKey(AddOf(s, c).key)
    ensures var t := DoUnreserveKey(s, c);
            && TouchesOnly(s, t, {AddOf(s, c).key}) && StdioKeeps(s, t) && OnlyCall(s, t, c)
            && t == s.(m := Unreserve(s.m, AddOf(s, c).key), calls := t.calls)
  {
  }

  lemma UnreserveCall(s: System, c: CallId)
    requires CanUnreserveKey(s, c) && CallOk(s, s.calls[c])
    ensures var t, a := DoUnreserveKey(s, c), AddOf(s, c);
            && c in t.calls && CallOk(t, t.calls[c]) && KeepsKey(s, t, c)
            && SameResourcesBothWays(s, t, c)
            && (s.calls[c].sess.Some? ==> forall k :: Removes(s, c, k) ==> Removes(t, c, k))
            && (s.phase.transport == Http ==> s.calls[c].sess.Some? && IsSessionKey(a.key))
  {
    if s.calls[c].sess.Some? {
      OwnKeyBelongs(s.calls[c].sess.value, AddOf(s, c).name);
    }
  }

  ghost predicate SameResourcesBothWays(s: System, t: System, c: CallId) {
    && (c in t.calls && t.calls[c].job.Adding? ==> SameResources(s, c, t.calls[c].job.add))
    && (c in s.calls && s.calls[c].job.Adding? ==> SameResources(t, c, s.calls[c].job.add))
  }

  lemma UnreserveEver(s: System, c: CallId)
    requires EverOk(s) && CanUnreserveKey(s, c)
    ensures EverOk(DoUnreserveKey(s, c))
  {
  }

  lemma UnreserveKeyKeeps(s: System, c: CallId)
    requires Inv(s) && CanUnreserveKey(s, c)
    ensures Inv(DoUnreserveKey(s, c))
  {
    hide Coherent, CapOk, EverOk, CallOk, CallsOk, SessionsOk, SessionOk, TouchesOnly, StdioKeeps, Exclusive, PlacesOk, PendingOk, NoLeak, DoUnreserveKey, KeepsKey;
    CallAndSession(s, c);
    SessionsOnlyOverHttp(s);
    var t, a := DoUnreserveKey(s, c), AddOf(s, c);
    UnreserveCall(s, c);
    UnreserveFrame(s, c);
    UnreserveCap(s.m, a.key);
    UnreserveEver(s, c);
    OthersHaveOtherKeys(s, c);
    PendingStays(s, t, c);
    NoLeakStays(s, t, c);
    PlacesStay(s, t);
    Assemble(s, t, c, {a.key});
  }
}
