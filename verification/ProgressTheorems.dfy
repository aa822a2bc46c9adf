/** The protocol does not meet its promises by refusing everything: an add within its limits
    can always run to its end on its own. */
module ProgressTheorems {
  import opened Wrappers
  import opened SessionKeys
  import opened ManagerSpec
  import opened Protocol
  import opened ProtocolInvariant
  import SessionSteps
  import CallSteps
  import ProtocolTheorems

  /** Call c belongs to the session sid, which has not ended. */
  predicate OnOpenSession(s: System, c: CallId, sid: string) {
    && s.phase == Serving(Http) && c in s.calls && s.calls[c].sess == Some(sid)
    && sid in s.sessions && s.sessions[sid].conn.id == sid && !s.sessions[sid].conn.closed
  }

  /** The add of name stands at pc, with its pool open or not. */
  predicate Stands(s: System, c: CallId, sid: string, name: string, pc: AddPc, hasPool: bool) {
    && OnOpenSession(s, c, sid) && s.calls[c].job.Adding?
    && var a := AddOf(s, c);
       a.name == name && a.key == SessionKey(sid, name) && a.pc == pc && a.pool.Some? == hasPool
  }

  predicate Owns(s: System, sid: string, name: string) {
    sid in s.sessions && name in s.sessions[sid].conn.owned && s.sessions[sid].conn.owned[name] == SessionKey(sid, name)
  }

  predicate Claimable(s: System, sid: string, name: string) {
    sid in s.sessions && name !in s.sessions[sid].conn.owned && |s.sessions[sid].conn.owned| < 5
  }

  predicate Reservable(s: System, key: string) {
    Reserve(s.m, key).1 == Reserved
  }

  lemma BeginAdd(s: System, c: CallId, sid: string, name: string)
    requires OnOpenSession(s, c, sid) && s.calls[c].job.Idle? && Claimable(s, sid, name) && Reservable(s, SessionKey(sid, name))
    requires name != "" && !IsSessionKey(name) && name !in s.m.connections
    ensures Enabled(s, AddConnection(c, name))
    ensures var t := Apply(s, AddConnection(c, name));
            Stands(t, c, sid, name, Checked, false) && Claimable(t, sid, name) && Reservable(t, SessionKey(sid, name))
  {
    hide SessionKey, IsSessionKey, Reserve;
  }

  lemma Claims(s: System, c: CallId, sid: string, name: string)
    requires Stands(s, c, sid, name, Checked, false) && Claimable(s, sid, name) && Reservable(s, SessionKey(sid, name))
    ensures Enabled(s, ClaimName(c))
    ensures var t := Apply(s, ClaimName(c));
            Stands(t, c, sid, name, Claimed, false) && Owns(t, sid, name) && Reservable(t, SessionKey(sid, name))
  {
    hide SessionKey, IsSessionKey, Reserve;
  }

  lemma Reserves(s: System, c: CallId, sid: string, name: string)
    requires Stands(s, c, sid, name, Claimed, false) && Owns(s, sid, name) && Reservable(s, SessionKey(sid, name))
    ensures Enabled(s, ReserveKey(c))
    ensures var t := Apply(s, ReserveKey(c));
            Stands(t, c, sid, name, Pending, false) && Owns(t, sid, name) && SessionKey(sid, name) !in t.m.connections
  {
    hide SessionKey, IsSessionKey, Counted;
  }

  lemma Opens(s: System, c: CallId, sid: string, name: string, configured: int)
    requires Stands(s, c, sid, name, Pending, false) && Owns(s, sid, name) && SessionKey(sid, name) !in s.m.connections
    ensures Enabled(s, OpenPool(c, configured))
    ensures var t := Apply(s, OpenPool(c, configured));
            Stands(t, c, sid, name, Pending, true) && Owns(t, sid, name) && SessionKey(sid, name) !in t.m.connections
  {
    hide SessionKey, IsSessionKey, PoolLimit;
  }

  lemma Publishes(s: System, c: CallId, sid: string, name: string, clientOk: bool, description: string, serverType: ServerType, pack: string)
    requires Stands(s, c, sid, name, Pending, true) && Owns(s, sid, name) && SessionKey(sid, name) !in s.m.connections
    ensures Enabled(s, Finalize(c, clientOk, description, serverType, pack))
    ensures var t := Apply(s, Finalize(c, clientOk, description, serverType, pack));
            Stands(t, c, sid, name, Unpending(true), false) && Owns(t, sid, name) && SessionKey(sid, name) in t.m.connections
  {
    hide SessionKey, IsSessionKey, Settle, HeldOf;
  }

  lemma Unreserves(s: System, c: CallId, sid: string, name: string)
    requires Stands(s, c, sid, name, Unpending(true), false) && Owns(s, sid, name) && SessionKey(sid, name) in s.m.connections
    ensures Enabled(s, UnreserveKey(c))
    ensures var t := Apply(s, UnreserveKey(c));
            Stands(t, c, sid, name, EndCheck, false) && Owns(t, sid, name) && SessionKey(sid, name) in t.m.connections
  {
    hide SessionKey, IsSessionKey;
  }

  lemma Checks(s: System, c: CallId, sid: string, name: string)
    requires Stands(s, c, sid, name, EndCheck, false) && Owns(s, sid, name) && SessionKey(sid, name) in s.m.connections
    ensures Enabled(s, CheckEnded(c))
    ensures var t := Apply(s, CheckEnded(c));
            Stands(t, c, sid, name, Activating(Begin(name)), false) && Owns(t, sid, name) && SessionKey(sid, name) in t.m.connections
  {
    hide SessionKey, IsSessionKey;
  }

  lemma Resolves(s: System, c: CallId, sid: string, name: string)
    requires Stands(s, c, sid, name, Activating(Begin(name)), false) && Owns(s, sid, name) && SessionKey(sid, name) in s.m.connections
    ensures Enabled(s, Advance(c))
    ensures var t, key := Apply(s, Advance(c)), SessionKey(sid, name);
            Stands(t, c, sid, name, Activating(Resolved(name, key)), false) && key in t.m.connections
  {
    hide SessionKey, IsSessionKey;
  }

  lemma Finds(s: System, c: CallId, sid: string, name: string)
    requires Stands(s, c, sid, name, Activating(Resolved(name, SessionKey(sid, name))), false)
    requires SessionKey(sid, name) in s.m.connections && !IsSessionKey(name)
    ensures Enabled(s, Advance(c))
    ensures var t, key := Apply(s, Advance(c)), SessionKey(sid, name);
            Stands(t, c, sid, name, Activating(Found(key)), false) && key in t.m.connections
  {
    hide SessionKey, IsSessionKey;
  }

  lemma Chooses(s: System, c: CallId, sid: string, name: string)
    requires Stands(s, c, sid, name, Activating(Found(SessionKey(sid, name))), false)
    requires SessionKey(sid, name) in s.m.connections
    ensures Enabled(s, Advance(c))
    ensures var t, key := Apply(s, Advance(c)), SessionKey(sid, name);
            Stands(t, c, sid, name, Activating(Chosen(key)), false) && key in t.m.connections && t.sessions[sid].conn.name == key
  {
    hide SessionKey, IsSessionKey;
  }

  /** The add has returned: its connection is registered, and session and call are on it. */
  predicate Complete(s: System, c: CallId, sid: string, key: string) {
    && OnOpenSession(s, c, sid) && s.calls[c].job.Idle? && s.calls[c].pin == key
    && s.sessions[sid].conn.name == key && key in s.m.connections
  }

  lemma Pins(s: System, c: CallId, sid: string, name: string)
    requires Stands(s, c, sid, name, Activating(Chosen(SessionKey(sid, name))), false)
    requires SessionKey(sid, name) in s.m.connections && s.sessions[sid].conn.name == SessionKey(sid, name)
    ensures Enabled(s, Advance(c))
    ensures Complete(Apply(s, Advance(c)), c, sid, SessionKey(sid, name))
  {
    hide SessionKey, IsSessionKey;
  }

  lemma OneMoreStep(s: System, step: Step, rest: seq<Step>)
    requires Enabled(s, step) && Legal(Apply(s, step), rest)
    ensures Legal(s, [step] + rest) && Run(s, [step] + rest) == Run(Apply(s, step), rest)
  {
    hide Enabled, Apply;
    assert ([step] + rest)[1..] == rest;
  }

  lemma NoSteps(s: System)
    ensures Legal(s, []) && Run(s, []) == s
  {
  }

  /** Once published, an add whose session stays open activates its connection. */
  lemma RegisteredAddCompletes(s: System, c: CallId, sid: string, name: string) returns (steps: seq<Step>)
    requires Stands(s, c, sid, name, Unpending(true), false) && Owns(s, sid, name)
    requires SessionKey(sid, name) in s.m.connections && !IsSessionKey(name)
    ensures Legal(s, steps) && Complete(Run(s, steps), c, sid, SessionKey(sid, name))
  {
    hide Enabled, Apply, Legal, Run, Stands, Owns, SessionKey, IsSessionKey, Complete;
    Unreserves(s, c, sid, name);
    var s1 := Apply(s, UnreserveKey(c));
    Checks(s1, c, sid, name);
    var s2 := Apply(s1, CheckEnded(c));
    Resolves(s2, c, sid, name);
    var s3 := Apply(s2, Advance(c));
    Finds(s3, c, sid, name);
    var s4 := Apply(s3, Advance(c));
    Chooses(s4, c, sid, name);
    var s5 := Apply(s4, Advance(c));
    Pins(s5, c, sid, name);
    var s6 := Apply(s5, Advance(c));
    NoSteps(s6);
    OneMoreStep(s5, Advance(c), []);
    OneMoreStep(s4, Advance(c), [Advance(c)] + []);
    OneMoreStep(s3, Advance(c), [Advance(c)] + ([Advance(c)] + []));
    OneMoreStep(s2, Advance(c), [Advance(c)] + ([Advance(c)] + ([Advance(c)] + [])));
    steps := [Advance(c)] + ([Advance(c)] + ([Advance(c)] + ([Advance(c)] + [])));
    OneMoreStep(s1, CheckEnded(c), steps);
    steps := [CheckEnded(c)] + steps;
    OneMoreStep(s, UnreserveKey(c), steps);
    steps := [UnreserveKey(c)] + steps;
  }

  lemma ClaimableAddCompletes(s: System, c: CallId, sid: string, name: string) returns (steps: seq<Step>)
    requires OnOpenSession(s, c, sid) && s.calls[c].job.Idle? && Claimable(s, sid, name) && Reservable(s, SessionKey(sid, name))
    requires name != "" && !IsSessionKey(name) && name !in s.m.connections
    ensures Legal(s, steps) && Complete(Run(s, steps), c, sid, SessionKey(sid, name))
  {
    hide Enabled, Apply, Legal, Run, Stands, Owns, SessionKey, IsSessionKey, Complete, Claimable, Reservable;
    var finalize := Finalize(c, true, "", MySQL, "");
    BeginAdd(s, c, sid, name);
    var s1 := Apply(s, AddConnection(c, name));
    Claims(s1, c, sid, name);
    var s2 := Apply(s1, ClaimName(c));
    Reserves(s2, c, sid, name);
    var s3 := Apply(s2, ReserveKey(c));
    Opens(s3, c, sid, name, 0);
    var s4 := Apply(s3, OpenPool(c, 0));
    Publishes(s4, c, sid, name, true, "", MySQL, "");
    var s5 := Apply(s4, finalize);
    steps := RegisteredAddCompletes(s5, c, sid, name);
    OneMoreStep(s4, finalize, steps);
    steps := [finalize] + steps;
    OneMoreStep(s3, OpenPool(c, 0), steps);
    steps := [OpenPool(c, 0)] + steps;
    OneMoreStep(s2, ReserveKey(c), steps);
    steps := [ReserveKey(c)] + steps;
    OneMoreStep(s1, ClaimName(c), steps);
    steps := [ClaimName(c)] + steps;
    OneMoreStep(s, AddConnection(c, name), steps);
    steps := [AddConnection(c, name)] + steps;
  }

  /** A key of an open session that its owned names do not hold is free in the manager. */
  lemma UnclaimedKeyIsFree(s: System, sid: string, name: string)
    requires Reachable(s) && sid in s.sessions && !s.sessions[sid].conn.closed && name !in s.sessions[sid].conn.owned
    ensures SessionKey(sid, name) !in s.m.connections && SessionKey(sid, name) !in s.m.pendingAdds
    ensures s.sessions[sid].conn.id == sid
  {
    ProtocolTheorems.ReachableInv(s);
    hide CapOk, PlacesOk, Exclusive, StartingOk, Reachable, CallsOk, Coherent, SessionKey, IsSessionKey, BelongsTo;
    SessionSteps.SessionThere(s, sid);
    CallSteps.ValidSession(s, sid);
    OwnKeyBelongs(sid, name);
    var key := SessionKey(sid, name);
    if key in s.m.connections || key in s.m.pendingAdds {
      assert key in s.sessions[sid].slots;
      var n :| n in s.sessions[sid].conn.owned && s.sessions[sid].conn.owned[n] == key;
      SessionKeyInjective(sid, n, sid, name);
    }
  }

  /** From every reachable state with room under both limits, an add of a new name in an open
      session can run to its end, whatever all other calls and sessions are in the middle of. */
  lemma AddCanComplete(s: System, c: CallId, sid: string, name: string) returns (steps: seq<Step>)
    requires Reachable(s) && s.phase == Serving(Http) && c in s.calls && s.calls[c].sess == Some(sid) && s.calls[c].job.Idle?
    requires sid in s.sessions && !s.sessions[sid].conn.closed
    requires name !in s.sessions[sid].conn.owned && |s.sessions[sid].conn.owned| < 5
    requires name != "" && !IsSessionKey(name) && name !in s.m.connections
    requires |Counted(s.m)| < 20
    ensures Legal(s, steps) && Complete(Run(s, steps), c, sid, SessionKey(sid, name))
  {
    UnclaimedKeyIsFree(s, sid, name);
    hide Reachable, Legal, Run, Complete, SessionKey, IsSessionKey, Counted;
    steps := ClaimableAddCompletes(s, c, sid, name);
  }

  // ---- Over stdio ----

  predicate OnStdio(s: System, c: CallId) {
    s.phase == Serving(Stdio) && c in s.calls && s.calls[c].sess == None
  }

  /** The process-wide add of name stands at pc, with its pool open or not. */
  predicate StandsStdio(s: System, c: CallId, name: string, pc: AddPc, hasPool: bool) {
    && OnStdio(s, c) && s.calls[c].job.Adding?
    && var a := AddOf(s, c);
       a.name == name && a.key == name && a.pc == pc && a.pool.Some? == hasPool
  }

  lemma BeginAddStdio(s: System, c: CallId, name: string)
    requires OnStdio(s, c) && s.calls[c].job.Idle? && name != "" && !IsSessionKey(name) && Reservable(s, name)
    ensures Enabled(s, AddConnection(c, name))
    ensures var t := Apply(s, AddConnection(c, name)); StandsStdio(t, c, name, Claimed, false) && Reservable(t, name)
  {
    hide IsSessionKey, Reserve;
  }

  lemma ReservesStdio(s: System, c: CallId, name: string)
    requires StandsStdio(s, c, name, Claimed, false) && Reservable(s, name)
    ensures Enabled(s, ReserveKey(c))
    ensures var t := Apply(s, ReserveKey(c)); StandsStdio(t, c, name, Pending, false) && name !in t.m.connections
  {
    hide IsSessionKey, Counted;
  }

  lemma OpensStdio(s: System, c: CallId, name: string, configured: int)
    requires StandsStdio(s, c, name, Pending, false) && name !in s.m.connections
    ensures Enabled(s, OpenPool(c, configured))
    ensures var t := Apply(s, OpenPool(c, configured)); StandsStdio(t, c, name, Pending, true) && name !in t.m.connections
  {
    hide IsSessionKey, PoolLimit;
  }

  lemma PublishesStdio(s: System, c: CallId, name: string, clientOk: bool, description: string, serverType: ServerType, pack: string)
    requires StandsStdio(s, c, name, Pending, true) && name !in s.m.connections
    ensures Enabled(s, Finalize(c, clientOk, description, serverType, pack))
    ensures var t := Apply(s, Finalize(c, clientOk, description, serverType, pack));
            StandsStdio(t, c, name, Unpending(true), false) && name in t.m.connections
  {
    hide IsSessionKey, Settle, HeldOf;
  }

  lemma UnreservesStdio(s: System, c: CallId, name: string)
    requires StandsStdio(s, c, name, Unpending(true), false) && name in s.m.connections
    ensures Enabled(s, UnreserveKey(c))
    ensures var t := Apply(s, UnreserveKey(c));
            StandsStdio(t, c, name, Activating(Begin(name)), false) && name in t.m.connections
  {
    hide IsSessionKey;
  }

  lemma ActivatesStdio(s: System, c: CallId, name: string)
    requires StandsStdio(s, c, name, Activating(Begin(name)), false) && name in s.m.connections
    ensures Enabled(s, Advance(c))
    ensures var t := Apply(s, Advance(c));
            StandsStdio(t, c, name, Activating(Chosen(name)), false) && name in t.m.connections && t.m.activeConn == name
  {
    hide IsSessionKey;
  }

  /** The add has returned: its connection is registered, active for the process and pinned. */
  predicate CompleteStdio(s: System, c: CallId, name: string) {
    && OnStdio(s, c) && s.calls[c].job.Idle? && s.calls[c].pin == name
    && s.m.activeConn == name && name in s.m.connections
  }

  lemma PinsStdio(s: System, c: CallId, name: string)
    requires StandsStdio(s, c, name, Activating(Chosen(name)), false) && name in s.m.connections && s.m.activeConn == name
    ensures Enabled(s, Advance(c)) && CompleteStdio(Apply(s, Advance(c)), c, name)
  {
    hide IsSessionKey;
  }

  /** Over stdio, a name neither registered nor being added can be added to the end: from every
      such state, reachable or not, and whatever other calls are in the middle of. */
  lemma StdioAddCanComplete(s: System, c: CallId, name: string) returns (steps: seq<Step>)
    requires OnStdio(s, c) && s.calls[c].job.Idle? && name != "" && !IsSessionKey(name)
    requires name !in s.m.connections && name !in s.m.pendingAdds
    ensures Legal(s, steps) && CompleteStdio(Run(s, steps), c, name)
  {
    assert Reservable(s, name) by { hide IsSessionKey, Counted; }
    hide Enabled, Apply, Legal, Run, StandsStdio, IsSessionKey, CompleteStdio, Reservable;
    var finalize := Finalize(c, true, "", MySQL, "");
    BeginAddStdio(s, c, name);
    var s1 := Apply(s, AddConnection(c, name));
    ReservesStdio(s1, c, name);
    var s2 := Apply(s1, ReserveKey(c));
    OpensStdio(s2, c, name, 0);
    var s3 := Apply(s2, OpenPool(c, 0));
    PublishesStdio(s3, c, name, true, "", MySQL, "");
    var s4 := Apply(s3, finalize);
    UnreservesStdio(s4, c, name);
    var s5 := Apply(s4, UnreserveKey(c));
    ActivatesStdio(s5, c, name);
    var s6 := Apply(s5, Advance(c));
    PinsStdio(s6, c, name);
    NoSteps(Apply(s6, Advance(c)));
    steps := [];
    OneMoreStep(s6, Advance(c), steps);
    steps := [Advance(c)] + steps;
    OneMoreStep(s5, Advance(c), steps);
    steps := [Advance(c)] + steps;
    OneMoreStep(s4, UnreserveKey(c), steps);
    steps := [UnreserveKey(c)] + steps;
    OneMoreStep(s3, finalize, steps);
    steps := [finalize] + steps;
    OneMoreStep(s2, OpenPool(c, 0), steps);
    steps := [OpenPool(c, 0)] + steps;
    OneMoreStep(s1, ReserveKey(c), steps);
    steps := [ReserveKey(c)] + steps;
    OneMoreStep(s, AddConnection(c, name), steps);
    steps := [AddConnection(c, name)] + steps;
  }
}
