/** The invariant under steps that change a session's own state. */
module SessionSteps {
  import opened Wrappers
  import opened SessionKeys
  import opened ManagerSpec
  import opened Protocol
  import opened ProtocolInvariant
  import opened Frames
  import opened CallSteps
  import SessionSpec

  /** From s to t only sessions (and possibly calls) change. */
  ghost predicate SessionsAndCallsOnly(s: System, t: System) {
    t == s.(sessions := t.sessions, calls := t.calls)
  }

  ghost predicate SameEnds(s: System, t: System) {
    && t.sessions.Keys == s.sessions.Keys
    && forall x :: x in s.sessions ==>
         t.sessions[x].conn.closed == s.sessions[x].conn.closed && t.sessions[x].cleanup == s.sessions[x].cleanup
  }

  /** Sessions change without ending, and one call may change with them. */
  lemma AssembleSessionStep(s: System, t: System, c: CallId, keys: set<string>)
    requires Inv(s) && s.phase == Serving(Http) && SessionsAndCallsOnly(s, t) && OnlyCall(s, t, c)
    requires TouchesOnly(s, t, keys) && SameEnds(s, t)
    requires forall x :: x in t.sessions ==> t.sessions[x] == s.sessions[x] || SessionOk(t, x, t.sessions[x])
    requires c in t.calls ==> CallOk(t, t.calls[c])
    requires forall d :: d in s.calls && d != c && InFlight(s.calls[d]) ==> s.calls[d].job.add.key !in keys
    requires EverOk(t)
    requires KeepsDuties(s, t, c) && KeepsKey(s, t, c)
    ensures Inv(t)
  {
    hide CallsOk, SessionsOk, SessionOk, CallOk, EverOk, NoLeak, Exclusive, Coherent, CapOk, TouchesOnly, PlacesOk, PendingOk, InFlight;
    CallsStay(s, t, keys);
    SessionsStay(s, t, keys);
    ExclusiveStays(s, t, c);
    PendingStays(s, t, c);
    NoLeakStays(s, t, c);
    PlacesStay(s, t);
  }

  lemma SessionThere(s: System, sid: string)
    requires Inv(s) && sid in s.sessions
    ensures s.phase.Serving?
    ensures s.phase == Serving(Http)
    ensures ServingOk(s)
    ensures SessionOk(s, sid, s.sessions[sid])
  {
    hide Coherent, CapOk, PlacesOk, PendingOk, NoLeak, CallsOk, SessionOk, Exclusive;
    if s.phase == Serving(Stdio) {
      assert false;
    }
    assert s.phase.transport == Http;
  }

  // ---- A session begins ----

  lemma OpenSessionEver(s: System, sid: string)
    requires EverOk(s) && NoLeak(s) && CanOpenSession(s, sid)
    ensures EverOk(DoOpenSession(s, sid)) && NoLeak(DoOpenSession(s, sid))
  {
    var t := DoOpenSession(s, sid);
    forall x, k | Ended(t, x) && ValidId(x) && BelongsTo(x, k) && k in t.m.connections
      ensures k in t.sessions[x].cleanup || exists c :: Removes(t, c, k)
    {
      if k !in t.sessions[x].cleanup {
        var c :| Removes(s, c, k);
        assert Removes(t, c, k);
      }
    }
  }

  lemma OpenSessionFrame(s: System, sid: string)
    requires CanOpenSession(s, sid)
    ensures var t := DoOpenSession(s, sid); TouchesOnly(s, t, {}) && SessionOk(t, sid, t.sessions[sid])
  {
  }

  lemma OpenSessionKeeps(s: System, sid: string)
    requires Inv(s) && CanOpenSession(s, sid)
    ensures Inv(DoOpenSession(s, sid))
  {
    hide Coherent, CapOk, PlacesOk, PendingOk, EverOk, NoLeak, CallOk, CallsOk, SessionsOk, SessionOk, TouchesOnly, Exclusive;
    var t := DoOpenSession(s, sid);
    OpenSessionEver(s, sid);
    OpenSessionFrame(s, sid);
    CallsStay(s, t, {});
    SessionsStay(s, t, {});
    ExclusiveStays(s, t, 0);
    PendingStays(s, t, 0);
    PlacesStay(s, t);
  }

  // ---- A session ends ----

  lemma EndSessionEver(s: System, sid: string)
    requires EverOk(s) && NoLeak(s) && CanEndSession(s, sid) && SessionOk(s, sid, s.sessions[sid])
    ensures EverOk(DoEndSession(s, sid)) && NoLeak(DoEndSession(s, sid))
  {
    var t := DoEndSession(s, sid);
    forall x, k | Ended(t, x) && ValidId(x) && BelongsTo(x, k) && k in t.m.connections
      ensures k in t.sessions[x].cleanup || exists c :: Removes(t, c, k)
    {
      if x != sid && k !in t.sessions[x].cleanup {
        var c :| Removes(s, c, k);
        assert Removes(t, c, k);
      }
    }
  }

  lemma EndSessionFrame(s: System, sid: string)
    requires CanEndSession(s, sid) && s.phase.Serving? && SessionOk(s, sid, s.sessions[sid])
    ensures var t := DoEndSession(s, sid); TouchesOnly(s, t, {}) && SessionOk(t, sid, t.sessions[sid])
  {
  }

  lemma EndSessionKeeps(s: System, sid: string)
    requires Inv(s) && CanEndSession(s, sid)
    ensures Inv(DoEndSession(s, sid))
  {
    hide Coherent, CapOk, PlacesOk, PendingOk, EverOk, NoLeak, CallOk, CallsOk, SessionsOk, SessionOk, TouchesOnly, Exclusive;
    var t := DoEndSession(s, sid);
    SessionThere(s, sid);
    EndSessionEver(s, sid);
    EndSessionFrame(s, sid);
    CallsStay(s, t, {});
    SessionsStay(s, t, {});
    ExclusiveStays(s, t, 0);
    PendingStays(s, t, 0);
    PlacesStay(s, t);
  }

  // ---- use_connection and activation store the session's choice ----

  lemma SetChoiceParts(s: System, c: CallId, sid: string)
    requires CanAdvance(s, c) && SwitchOf(s.calls[c]).Found?
    requires s.calls[c].sess == Some(sid) && sid in s.sessions && s.phase.Serving?
    ensures var t := DoAdvance(s, c);
            SessionsAndCallsOnly(s, t) && TouchesOnly(s, t, {}) && SameEnds(s, t)
  {
  }

  lemma SetChoiceSession(s: System, c: CallId, sid: string)
    requires CanAdvance(s, c) && SwitchOf(s.calls[c]).Found? && SwitchOk(s, Some(sid), SwitchOf(s.calls[c]))
    requires s.calls[c].sess == Some(sid) && sid in s.sessions && SessionOk(s, sid, s.sessions[sid])
    ensures var t := DoAdvance(s, c); sid in t.sessions && SessionOk(t, sid, t.sessions[sid])
  {
  }

  lemma SetChoiceCall(s: System, c: CallId, sid: string)
    requires CanAdvance(s, c) && CallOk(s, s.calls[c]) && SwitchOf(s.calls[c]).Found?
    requires s.calls[c].sess == Some(sid)
    ensures CallOk(DoAdvance(s, c), DoAdvance(s, c).calls[c]) && KeepsDuties(s, DoAdvance(s, c), c) && KeepsKey(s, DoAdvance(s, c), c)
  {
  }

  lemma SetChoiceEver(s: System, c: CallId, sid: string)
    requires EverOk(s) && CanAdvance(s, c) && SwitchOf(s.calls[c]).Found?
    requires s.calls[c].sess == Some(sid) && sid in s.sessions && s.phase == Serving(Http)
    ensures EverOk(DoAdvance(s, c))
  {
  }

  lemma SetChoiceKeeps(s: System, c: CallId)
    requires Inv(s) && CanAdvance(s, c) && SwitchOf(s.calls[c]).Found?
    ensures Inv(DoAdvance(s, c))
  {
    hide Coherent, CapOk, PlacesOk, PendingOk, EverOk, NoLeak, CallOk, CallsOk, SessionsOk, SessionOk, TouchesOnly, Exclusive, SameEnds, KeepsDuties, KeepsKey;
    CallAndSession(s, c);
    ChosenSession(s, c);
    var sid := s.calls[c].sess.value;
    var t := DoAdvance(s, c);
    SessionThere(s, sid);
    SetChoiceParts(s, c, sid);
    SetChoiceSession(s, c, sid);
    SetChoiceCall(s, c, sid);
    SetChoiceEver(s, c, sid);
    AssembleSessionStep(s, t, c, {});
  }

  lemma ChosenSession(s: System, c: CallId)
    requires CanAdvance(s, c) && CallOk(s, s.calls[c]) && SwitchOf(s.calls[c]).Found?
    ensures s.calls[c].sess.Some? && SwitchOk(s, s.calls[c].sess, SwitchOf(s.calls[c]))
  {
  }

  // ---- add_connection claims its name ----

  /** A name the open session does not own has no slot, so its key is new everywhere. */
  lemma UnownedKeyIsNew(s: System, sid: string, name: string)
    requires EverOk(s) && sid in s.sessions && SessionOk(s, sid, s.sessions[sid])
    requires !Ended(s, sid) && name !in s.sessions[sid].conn.owned
    ensures SessionKey(sid, name) !in s.sessions[sid].slots
    ensures SessionKey(sid, name) !in s.ever && SessionKey(sid, name) !in s.m.pendingAdds
  {
    var q := s.sessions[sid];
    var key := SessionKey(sid, name);
    OwnKeyBelongs(sid, name);
    if key in q.slots {
      var n :| n in q.conn.owned && q.conn.owned[n] == key;
      SessionKeyInjective(sid, n, sid, name);
      assert false;
    }
  }

  lemma ClaimedNameIsUnowned(q: SessionSpec.SessionConn, name: string)
    requires SessionSpec.Claim(q, name).1 == SessionSpec.Claimed
    ensures !q.closed && name !in q.owned
  {
  }

  lemma UnslottedKeyIsFree(s: System, sid: string, name: string)
    requires CallsOk(s) && SessionsOk(s) && s.phase == Serving(Http)
    requires sid in s.sessions && SessionKey(sid, name) !in s.sessions[sid].slots
    ensures forall d :: d in s.calls && InFlight(s.calls[d]) ==> s.calls[d].job.add.key != SessionKey(sid, name)
  {
    hide SwitchOk, ActivationOk;
    forall d | d in s.calls && InFlight(s.calls[d]) && s.calls[d].job.add.key == SessionKey(sid, name)
      ensures false
    {
      assert CallOk(s, s.calls[d]);
      var other := s.calls[d].sess.value;
      assert SessionOk(s, other, s.sessions[other]) && SessionOk(s, sid, s.sessions[sid]);
      OwnerOfKey(sid, name);
    }
  }

  lemma ClaimFrame(s: System, c: CallId, sid: string)
    requires AddAt(s, c, Checked) && s.calls[c].sess == Some(sid) && sid in s.sessions && s.phase == Serving(Http)
    requires AddOf(s, c).key == SessionKey(sid, AddOf(s, c).name)
    requires SessionSpec.Claim(s.sessions[sid].conn, AddOf(s, c).name).1 == SessionSpec.Claimed
    ensures var t := DoClaimName(s, c); SessionsAndCallsOnly(s, t) && SameEnds(s, t) && TouchesOnly(s, t, {AddOf(s, c).key})
  {
    hide SessionKey, IsSessionKey, BelongsTo;
    OwnKeyBelongs(sid, AddOf(s, c).name);
    var t := DoClaimName(s, c);
    assert t == s.(sessions := t.sessions, calls := t.calls);
    assert forall x :: x in s.sessions && x != sid ==> t.sessions[x] == s.sessions[x];
    assert t.sessions[sid].conn.closed == s.sessions[sid].conn.closed;
    assert s.sessions[sid].conn.owned.Keys <= t.sessions[sid].conn.owned.Keys;
    assert s.sessions[sid].slots <= t.sessions[sid].slots;
    hide AddAt, AddOf, DoClaimName;
  }

  lemma ClaimValues(q: SessionSpec.SessionConn, name: string)
    requires SessionSpec.Claim(q, name).1 == SessionSpec.Claimed
    ensures SessionSpec.Claim(q, name).0.owned.Values == q.owned.Values + {SessionKey(q.id, name)}
    ensures |SessionSpec.Claim(q, name).0.owned| == |q.owned| + 1
  {
    hide SessionKey;
    var key, r := SessionKey(q.id, name), SessionSpec.Claim(q, name).0;
    forall k | k in q.owned.Values + {key}
      ensures k in r.owned.Values
    {
      if k == key {
        assert r.owned[name] == k;
      } else {
        var n :| n in q.owned && q.owned[n] == k;
        assert r.owned[n] == k;
      }
    }
  }

  lemma ClaimSession(s: System, t: System, sid: string, name: string)
    requires sid in s.sessions && SessionOk(s, sid, s.sessions[sid])
    requires SessionSpec.Claim(s.sessions[sid].conn, name).1 == SessionSpec.Claimed
    requires SessionKey(sid, name) !in s.sessions[sid].slots && !IsSessionKey(name) && name !in s.m.connections
    requires t.m == s.m && t.ever == s.ever
    ensures SessionOk(t, sid, s.sessions[sid].(conn := SessionSpec.Claim(s.sessions[sid].conn, name).0,
                                               slots := s.sessions[sid].slots + {SessionKey(sid, name)}))
  {
    hide SessionKey, IsSessionKey, BelongsTo, ValidId;
    OwnKeyBelongs(sid, name);
    ClaimValues(s.sessions[sid].conn, name);
    ClaimKeyed(s.sessions[sid].conn, name);
    OneMoreSlot(s.sessions[sid].slots, SessionKey(sid, name));
    hide SessionSpec.Claim, SessionSpec.WellKeyed;
  }

  lemma OneMoreSlot(slots: set<string>, key: string)
    requires key !in slots
    ensures |slots + {key}| == |slots| + 1
  {
  }

  /** What a claim leaves as it was, and that the name claimed is keyed like the others. */
  lemma ClaimKeyed(q: SessionSpec.SessionConn, name: string)
    requires SessionSpec.WellKeyed(q) && !IsSessionKey(name) && SessionSpec.Claim(q, name).1 == SessionSpec.Claimed
    ensures var r := SessionSpec.Claim(q, name).0;
            && !q.closed && r.id == q.id && r.name == q.name && !r.closed && |q.owned| < MAX_SESSION_CONNECTIONS
            && SessionSpec.WellKeyed(r) && r.owned.Keys == q.owned.Keys + {name}
  {
    hide SessionKey, IsSessionKey;
  }

  lemma ClaimCall(s: System, c: CallId, sid: string)
    requires AddAt(s, c, Checked) && CallOk(s, s.calls[c]) && s.calls[c].sess == Some(sid)
    requires SessionSpec.Claim(s.sessions[sid].conn, AddOf(s, c).name).1 == SessionSpec.Claimed
    requires AddOf(s, c).key !in s.ever
    ensures CallOk(DoClaimName(s, c), DoClaimName(s, c).calls[c]) && KeepsDuties(s, DoClaimName(s, c), c)
  {
  }

  lemma ClaimEver(s: System, c: CallId, sid: string)
    requires EverOk(s) && AddAt(s, c, Checked) && s.calls[c].sess == Some(sid) && sid in s.sessions
    requires s.phase == Serving(Http) && !Ended(s, sid)
    requires SessionSpec.Claim(s.sessions[sid].conn, AddOf(s, c).name).1 == SessionSpec.Claimed
    ensures EverOk(DoClaimName(s, c))
  {
  }

  lemma ClaimShape(s: System, c: CallId, sid: string)
    requires AddAt(s, c, Checked) && s.calls[c].sess == Some(sid) && sid in s.sessions
    requires SessionSpec.Claim(s.sessions[sid].conn, AddOf(s, c).name).1 == SessionSpec.Claimed
    ensures var t, a, q := DoClaimName(s, c), AddOf(s, c), s.sessions[sid];
            && t.sessions == s.sessions[sid := q.(conn := SessionSpec.Claim(q.conn, a.name).0, slots := q.slots + {a.key})]
            && t.calls == s.calls[c := s.calls[c].(job := Adding(a.(pc := Claimed)))]
  {
  }

  lemma ClaimSucceeds(s: System, c: CallId, sid: string)
    requires Inv(s) && AddAt(s, c, Checked) && s.calls[c].sess == Some(sid) && sid in s.sessions
    requires SessionSpec.Claim(s.sessions[sid].conn, AddOf(s, c).name).1 == SessionSpec.Claimed
    ensures Inv(DoClaimName(s, c))
  {
    hide Coherent, CapOk, PlacesOk, PendingOk, EverOk, NoLeak, CallOk, CallsOk, SessionsOk, SessionOk, TouchesOnly, Exclusive, SameEnds, KeepsDuties, DoClaimName, InFlight, SessionSpec.Claim;
    var t, a := DoClaimName(s, c), AddOf(s, c);
    CallAndSession(s, c);
    CheckedHasSession(s, c);
    SessionThere(s, sid);
    ClaimedNameIsUnowned(s.sessions[sid].conn, a.name);
    UnownedKeyIsNew(s, sid, a.name);
    UnslottedKeyIsFree(s, sid, a.name);
    ClaimFrame(s, c, sid);
    ClaimShape(s, c, sid);
    ClaimSession(s, t, sid, a.name);
    ClaimCall(s, c, sid);
    ClaimEver(s, c, sid);
    AssembleSessionStep(s, t, c, {a.key});
  }

  lemma ClaimNameKeeps(s: System, c: CallId)
    requires Inv(s) && AddAt(s, c, Checked)
    ensures Inv(DoClaimName(s, c))
  {
    hide Coherent, CapOk, PlacesOk, PendingOk, EverOk, NoLeak, CallOk, CallsOk, SessionsOk, SessionOk, Exclusive, KeepsDuties;
    CallAndSession(s, c);
    CheckedHasSession(s, c);
    var sid := s.calls[c].sess.value;
    if SessionSpec.Claim(s.sessions[sid].conn, AddOf(s, c).name).1 == SessionSpec.Claimed {
      ClaimSucceeds(s, c, sid);
    } else {
      OnlyCallChanges(s, DoClaimName(s, c), c);
    }
  }

  lemma CheckedHasSession(s: System, c: CallId)
    requires AddAt(s, c, Checked) && CallOk(s, s.calls[c])
    ensures s.calls[c].sess.Some? && AddOf(s, c).key == SessionKey(s.calls[c].sess.value, AddOf(s, c).name)
    ensures AddOf(s, c).pool.None? && AddOf(s, c).tunnel.None?
    ensures !IsSessionKey(AddOf(s, c).name) && AddOf(s, c).name !in s.m.connections
    ensures CallOk(s, s.calls[c].(job := Idle)) && KeepsDuties(s, WithJob(s, c, Idle), c) && KeepsKey(s, WithJob(s, c, Idle), c)
  {
  }

  // ---- A failed add releases its name ----

  /** Removing a name from an injective map removes just its value. */
  lemma RemovedValues(owned: map<string, string>, name: string, key: string)
    requires forall n :: n in owned ==> (owned[n] == key <==> n == name)
    ensures (owned - {name}).Values == owned.Values - {key}
    ensures name in owned <==> key in owned.Values
  {
    var r := owned - {name};
    forall v | v in owned.Values && v != key
      ensures v in r.Values
    {
      var n :| n in owned && owned[n] == v;
      assert n in r && r[n] == v;
    }
    forall v | v in r.Values
      ensures v in owned.Values && v != key
    {
      var n :| n in r && r[n] == v;
      assert n in owned && owned[n] == v;
    }
  }

  lemma RemovedSize(owned: map<string, string>, name: string)
    ensures |owned - {name}| == if name in owned then |owned| - 1 else |owned|
  {
    var r := owned - {name};
    if name in owned {
      assert r.Keys == owned.Keys - {name};
      assert |r.Keys| == |owned.Keys| - 1;
    } else {
      assert r == owned;
    }
  }

  lemma ReleaseValues(q: SessionSpec.SessionConn, name: string)
    requires SessionSpec.WellKeyed(q) && ValidId(q.id)
    ensures SessionSpec.Release(q, name).owned.Values == q.owned.Values - {SessionKey(q.id, name)}
    ensures |SessionSpec.Release(q, name).owned| == if name in q.owned then |q.owned| - 1 else |q.owned|
    ensures name in q.owned <==> SessionKey(q.id, name) in q.owned.Values
  {
    hide SessionKey, ValidId, IsSessionKey;
    forall n | n in q.owned && q.owned[n] == SessionKey(q.id, name)
      ensures n == name
    {
      SessionKeyInjective(q.id, n, q.id, name);
    }
    RemovedValues(q.owned, name, SessionKey(q.id, name));
    RemovedSize(q.owned, name);
  }

  lemma ReleaseSession(s: System, t: System, sid: string, name: string)
    requires sid in s.sessions && SessionOk(s, sid, s.sessions[sid]) && t.m == s.m && t.ever == s.ever
    ensures var q := s.sessions[sid];
            SessionOk(t, sid, q.(conn := SessionSpec.Release(q.conn, name),
                                 slots := if q.conn.closed then q.slots else q.slots - {SessionKey(sid, name)}))
  {
    ReleaseValues(s.sessions[sid].conn, name);
  }

  lemma ReleaseShape(s: System, c: CallId, sid: string)
    requires AddAt(s, c, Releasing) && s.calls[c].sess == Some(sid) && sid in s.sessions
    ensures var t, a, q := DoReleaseName(s, c), AddOf(s, c), s.sessions[sid];
            && t.sessions == s.sessions[sid := q.(conn := SessionSpec.Release(q.conn, a.name),
                                                  slots := if q.conn.closed then q.slots else q.slots - {a.key})]
            && t.calls == s.calls[c := s.calls[c].(job := Idle)]
            && SessionsAndCallsOnly(s, t) && SameEnds(s, t)
  {
  }

  lemma ReleaseFrame(s: System, c: CallId, sid: string)
    requires AddAt(s, c, Releasing) && s.calls[c].sess == Some(sid) && sid in s.sessions && s.phase == Serving(Http)
    requires AddOf(s, c).key == SessionKey(sid, AddOf(s, c).name)
    ensures TouchesOnly(s, DoReleaseName(s, c), {AddOf(s, c).key})
  {
    OwnKeyBelongs(sid, AddOf(s, c).name);
  }

  lemma ReleaseEver(s: System, c: CallId, sid: string)
    requires EverOk(s) && AddAt(s, c, Releasing) && s.calls[c].sess == Some(sid) && sid in s.sessions
    requires AddOf(s, c).key !in s.ever && AddOf(s, c).key !in s.m.pendingAdds && s.phase == Serving(Http)
    ensures EverOk(DoReleaseName(s, c))
  {
  }

  /** An add that waits to release its name has no reservation left. */
  lemma ReleasingIsUnreserved(s: System, c: CallId)
    requires PendingOk(s) && Exclusive(s) && AddAt(s, c, Releasing)
    ensures AddOf(s, c).key !in s.m.pendingAdds
  {
  }

  lemma ReleasingCall(s: System, c: CallId)
    requires (AddAt(s, c, Releasing) || AddAt(s, c, RollbackRelease)) && CallOk(s, s.calls[c])
    ensures s.calls[c].sess.Some? && AddOf(s, c).key == SessionKey(s.calls[c].sess.value, AddOf(s, c).name)
    ensures AddOf(s, c).pool.None? && AddOf(s, c).tunnel.None?
    ensures AddAt(s, c, Releasing) ==> AddOf(s, c).key !in s.ever
    ensures AddAt(s, c, RollbackRelease) ==> Ended(s, s.calls[c].sess.value)
  {
  }

  lemma ReleaseNameKeeps(s: System, c: CallId)
    requires Inv(s) && AddAt(s, c, Releasing)
    ensures Inv(DoReleaseName(s, c))
  {
    hide Coherent, CapOk, PlacesOk, PendingOk, EverOk, NoLeak, CallsOk, SessionsOk, SessionOk, TouchesOnly, Exclusive, SameEnds, DoReleaseName, AddOk;
    CallAndSession(s, c);
    ReleasingCall(s, c);
    var t, a, sid := DoReleaseName(s, c), AddOf(s, c), s.calls[c].sess.value;
    SessionThere(s, sid);
    ReleasingIsUnreserved(s, c);
    ReleaseShape(s, c, sid);
    ReleaseFrame(s, c, sid);
    ReleaseSession(s, t, sid, a.name);
    ReleaseEver(s, c, sid);
    OthersHaveOtherKeys(s, c);
    AssembleSessionStep(s, t, c, {a.key});
  }

  lemma OthersHaveOtherKeys(s: System, c: CallId)
    requires Exclusive(s) && c in s.calls && InFlight(s.calls[c])
    ensures forall d :: d in s.calls && d != c && InFlight(s.calls[d]) ==> s.calls[d].job.add.key != AddOf(s, c).key
  {
  }

  /** Activation fails only after the session's end, when there is no name left to release. */
  lemma RollBackNameCall(s: System, c: CallId, sid: string)
    requires AddAt(s, c, RollbackRelease) && CallOk(s, s.calls[c]) && s.calls[c].sess == Some(sid)
    requires SessionOk(s, sid, s.sessions[sid])
    ensures var t := DoRollBackName(s, c);
            t == s.(calls := t.calls) && OnlyCall(s, t, c) && CallOk(s, t.calls[c]) && KeepsDuties(s, t, c) && KeepsKey(s, t, c)
  {
    var q := s.sessions[sid];
    assert q.conn.owned - {AddOf(s, c).name} == q.conn.owned;
    assert s.sessions[sid := q] == s.sessions;
  }

  lemma RollBackNameKeeps(s: System, c: CallId)
    requires Inv(s) && AddAt(s, c, RollbackRelease)
    ensures Inv(DoRollBackName(s, c))
  {
    hide Coherent, CapOk, PlacesOk, PendingOk, EverOk, NoLeak, CallOk, CallsOk, SessionsOk, SessionOk, Exclusive, KeepsDuties, KeepsKey, OnlyCall, DoRollBackName;
    CallAndSession(s, c);
    ReleasingCall(s, c);
    RollBackNameCall(s, c, s.calls[c].sess.value);
    OnlyCallChanges(s, DoRollBackName(s, c), c);
  }
}
