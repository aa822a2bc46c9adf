/** The invariant under steps that change one call and nothing else. */
module CallSteps {
  import opened Wrappers
  import opened SessionKeys
  import opened ManagerSpec
  import opened Protocol
  import opened ProtocolInvariant
  import opened Frames

  /** The other call parts of the invariant read neither `calls` nor anything that changes. */
  lemma SameForCalls(s: System, t: System)
    requires t == s.(calls := t.calls)
    ensures forall call :: CallOk(s, call) <==> CallOk(t, call)
    ensures SessionsOk(s) <==> SessionsOk(t)
    ensures EverOk(s) <==> EverOk(t)
  {
    forall call ensures CallOk(s, call) <==> CallOk(t, call) {
      if call.job.Adding? {
        assert AddOk(s, call.sess, call.job.add) <==> AddOk(t, call.sess, call.job.add);
      }
    }
    forall sid, q ensures SessionOk(s, sid, q) <==> SessionOk(t, sid, q) {
    }
  }

  /** What one call may do to the reservations, removals and resources it answers for. */
  ghost predicate KeepsDuties(s: System, t: System, c: CallId) {
    && (forall k :: Reserves(s, c, k) ==> Reserves(t, c, k))
    && (forall k, sid {:trigger BelongsTo(sid, k)} ::
          Removes(s, c, k) && Ended(s, sid) && ValidId(sid) && BelongsTo(sid, k) ==> Removes(t, c, k) || k !in s.m.connections)
    && (c in t.calls && t.calls[c].job.Adding? ==> SameResources(s, c, t.calls[c].job.add))
    && (c in s.calls && s.calls[c].job.Adding? ==> SameResources(t, c, s.calls[c].job.add))
  }

  /** The call's key in flight is the one it had, or one no other call has. */
  ghost predicate KeepsKey(s: System, t: System, c: CallId) {
    c in t.calls && InFlight(t.calls[c]) ==>
      (c in s.calls && InFlight(s.calls[c]) && s.calls[c].job.add.key == t.calls[c].job.add.key) ||
      (forall d :: d in s.calls && d != c && InFlight(s.calls[d]) ==> s.calls[d].job.add.key != t.calls[c].job.add.key)
  }

  ghost predicate OnlyCall(s: System, t: System, c: CallId) {
    && (forall d :: d != c ==> (d in t.calls <==> d in s.calls))
    && (forall d :: d in t.calls && d != c ==> t.calls[d] == s.calls[d])
  }

  ghost predicate SameResources(s: System, c: CallId, a: Add) {
    (a.pool.None? && a.tunnel.None?) ||
    (c in s.calls && s.calls[c].job.Adding? && s.calls[c].job.add.pool == a.pool && s.calls[c].job.add.tunnel == a.tunnel)
  }

  lemma OnlyCallChanges(s: System, t: System, c: CallId)
    requires Inv(s) && s.phase.Serving?
    requires t == s.(calls := t.calls)
    requires OnlyCall(s, t, c)
    requires c in t.calls ==> CallOk(s, t.calls[c])
    requires KeepsDuties(s, t, c) && KeepsKey(s, t, c)
    ensures Inv(t)
  {
    hide CallOk, SessionsOk, EverOk, Coherent, CapOk;
    SameForCalls(s, t);
    ExclusiveStays(s, t, c);
    PendingStays(s, t, c);
    NoLeakStays(s, t, c);
    PlacesStay(s, t);
  }

  /** What the invariant says of one call and its session. */
  lemma CallAndSession(s: System, c: CallId)
    requires Inv(s) && c in s.calls
    ensures ServingOk(s) && CallOk(s, s.calls[c])
    ensures s.calls[c].sess.Some? ==>
              var sid := s.calls[c].sess.value; sid in s.sessions && SessionOk(s, sid, s.sessions[sid])
  {
    hide Coherent, CapOk, PlacesOk, Exclusive, PendingOk, NoLeak, EverOk, SessionOk, AddOk;
    assert CallOk(s, s.calls[c]);
  }

  lemma PinIsRegistered(s: System, sess: Option<string>)
    requires Coherent(s.m) && EverOk(s) && s.m.activeConn in s.m.connections
    requires sess.Some? ==> sess.value in s.sessions && SessionOk(s, sess.value, s.sessions[sess.value])
    ensures ActiveName(s, sess) in s.ever && OwnOrShared(sess, ActiveName(s, sess))
  {
  }

  lemma BeginCallKeeps(s: System, c: CallId, sess: Option<string>)
    requires Inv(s) && CanBeginCall(s, c, sess)
    ensures Inv(DoBeginCall(s, c, sess))
  {
    hide Coherent, CapOk, PlacesOk, Exclusive, PendingOk, NoLeak, CallsOk, EverOk, SessionOk, ActiveName;
    PinIsRegistered(s, sess);
    OnlyCallChanges(s, DoBeginCall(s, c, sess), c);
  }

  lemma EndCallKeeps(s: System, c: CallId)
    requires Inv(s) && CanEndCall(s, c)
    ensures Inv(DoEndCall(s, c))
  {
    hide Coherent, CapOk, PlacesOk, Exclusive, PendingOk, NoLeak, SessionsOk, EverOk;
    OnlyCallChanges(s, DoEndCall(s, c), c);
  }

  lemma UseConnectionKeeps(s: System, c: CallId, name: string)
    requires Inv(s) && CanUseConnection(s, c, name)
    ensures Inv(WithJob(s, c, Using(Begin(name))))
  {
    hide Coherent, CapOk, PlacesOk, Exclusive, PendingOk, NoLeak, SessionsOk, EverOk;
    CallAndSession(s, c);
    OnlyCallChanges(s, WithJob(s, c, Using(Begin(name))), c);
  }

  lemma AddConnectionKeeps(s: System, c: CallId, name: string)
    requires Inv(s) && CanAddConnection(s, c, name)
    ensures Inv(DoAddConnection(s, c, name))
  {
    hide Coherent, CapOk, PlacesOk, Exclusive, PendingOk, NoLeak, SessionsOk, EverOk, CallsOk, SessionOk;
    CallAndSession(s, c);
    OnlyCallChanges(s, DoAddConnection(s, c, name), c);
  }

  lemma CheckEndedCall(s: System, c: CallId, sid: string)
    requires AddAt(s, c, EndCheck) && CallOk(s, s.calls[c])
    requires s.calls[c].sess == Some(sid) && ValidId(sid)
    ensures CallOk(s, DoCheckEnded(s, c).calls[c])
    ensures KeepsDuties(s, DoCheckEnded(s, c), c) && KeepsKey(s, DoCheckEnded(s, c), c)
  {
    OwnerOfKey(sid, AddOf(s, c).name);
  }

  lemma CheckEndedKeeps(s: System, c: CallId)
    requires Inv(s) && AddAt(s, c, EndCheck)
    ensures Inv(DoCheckEnded(s, c))
  {
    hide Coherent, CapOk, PlacesOk, Exclusive, PendingOk, NoLeak, EverOk, CallsOk, SessionsOk, SwitchOk, KeepsDuties, KeepsKey;
    CallAndSession(s, c);
    assert AddOk(s, s.calls[c].sess, AddOf(s, c));
    CheckEndedCall(s, c, s.calls[c].sess.value);
    OnlyCallChanges(s, DoCheckEnded(s, c), c);
  }

  // ---- Switching ----

  /** Over HTTP no section but the session's own `set` changes anything beyond the call. */
  lemma SwitchCall(s: System, c: CallId, sid: string)
    requires CanAdvance(s, c) && CallOk(s, s.calls[c]) && !SwitchOf(s.calls[c]).Found?
    requires s.calls[c].sess == Some(sid) && SessionOk(s, sid, s.sessions[sid])
    requires forall k :: k in s.m.connections ==> k in s.ever
    requires s.calls[c].job.Adding? && !Ended(s, sid) ==> AddOf(s, c).key in s.m.connections
    ensures var t := DoAdvance(s, c);
            t == s.(calls := t.calls) && CallOk(s, t.calls[c]) && KeepsDuties(s, t, c) && KeepsKey(s, t, c)
  {
    hide IsSessionKey, BelongsTo, SessionKey;
    var sw := SwitchOf(s.calls[c]);
    if sw.Begin? {
      OwnKeyBelongs(sid, sw.name);
    }
  }

  /** An add that activates in an open session finds its key registered. */
  lemma ActivatingKeyRegistered(s: System, c: CallId, sid: string)
    requires EverOk(s) && c in s.calls && CallOk(s, s.calls[c]) && s.calls[c].job.Adding?
    requires s.calls[c].sess == Some(sid) && ValidId(sid) && !Ended(s, sid)
    requires AfterRegistration(AddOf(s, c).pc)
    ensures AddOf(s, c).key in s.m.connections
  {
    OwnerOfKey(sid, AddOf(s, c).name);
  }

  lemma HttpSwitchKeeps(s: System, c: CallId)
    requires Inv(s) && CanAdvance(s, c) && s.phase == Serving(Http) && !SwitchOf(s.calls[c]).Found?
    ensures Inv(DoAdvance(s, c))
  {
    hide Coherent, CapOk, PlacesOk, Exclusive, PendingOk, NoLeak, CallsOk, SessionsOk, SwitchOk, AddOk, SessionOk, KeepsDuties, KeepsKey;
    CallAndSession(s, c);
    var sid := s.calls[c].sess.value;
    assert s.calls[c].job.Adding? && !Ended(s, sid) ==> AddOf(s, c).key in s.m.connections by {
      if s.calls[c].job.Adding? && !Ended(s, sid) {
        ValidSession(s, sid);
        ActivatingKeyRegistered(s, c, sid);
      }
    }
    SwitchCall(s, c, sid);
    OnlyCallChanges(s, DoAdvance(s, c), c);
  }

  lemma ValidSession(s: System, sid: string)
    requires sid in s.sessions && SessionOk(s, sid, s.sessions[sid])
    ensures ValidId(sid)
  {
  }
}
