/** What use_connection and add_connection are for: a session's choice governs every later call
    of it, and a switch that is not refused reaches the session and the call's pin. */
module ChoiceTheorems {
  import opened Wrappers
  import opened SessionKeys
  import opened ManagerSpec
  import opened Protocol
  import opened ProtocolInvariant
  import DrainTheorems
  import PinTheorems
  import ProgressTheorems
  import ProtocolTheorems
  import SessionSpec

  // ---- A choice stays until the session makes another ----

  /** The section in which a call of the session stores a choice. */
  predicate StoresChoice(s: System, step: Step, sid: string) {
    step.Advance? && CanAdvance(s, step.c) && s.calls[step.c].sess == Some(sid) && SwitchOf(s.calls[step.c]).Found?
  }

  predicate NeverStores(s: System, steps: seq<Step>, sid: string)
    requires Legal(s, steps)
    decreases |steps|
  {
    steps == [] || (!StoresChoice(s, steps[0], sid) && NeverStores(Apply(s, steps[0]), steps[1..], sid))
  }

  ghost predicate SameChoice(s: System, t: System, sid: string) {
    sid in s.sessions && sid in t.sessions && t.sessions[sid].conn.name == s.sessions[sid].conn.name
  }

  lemma AdvanceKeepsChoice(s: System, c: CallId, sid: string)
    requires CanAdvance(s, c) && sid in s.sessions && !StoresChoice(s, Advance(c), sid)
    ensures SameChoice(s, DoAdvance(s, c), sid)
  {
    hide IsSessionKey, SetActive, SessionSpec.Resolve, AfterSection;
  }

  lemma FreedKeepsChoice(s: System, c: CallId, sid: string)
    requires c in s.calls && s.calls[c].job.Adding? && sid in s.sessions
    ensures SameChoice(s, FreeName(s, c), sid)
  {
  }

  lemma ClaimKeepsChoice(s: System, c: CallId, sid: string)
    requires AddAt(s, c, Checked) && sid in s.sessions
    ensures SameChoice(s, DoClaimName(s, c), sid)
  {
    hide SessionKey;
  }

  predicate TouchesSession(step: Step) {
    step.ClaimName? || step.ReleaseName? || step.RollBackName? || step.Advance?
  }

  predicate TouchesReservation(step: Step) {
    step.ReserveKey? || step.FailIo? || step.Finalize? || step.UnreserveKey?
  }

  lemma SessionStepKeepsChoice(s: System, step: Step, sid: string)
    requires Enabled(s, step) && sid in s.sessions && TouchesSession(step) && !StoresChoice(s, step, sid)
    ensures SameChoice(s, Apply(s, step), sid)
  {
    hide FreeName, DoClaimName, DoAdvance;
    match step
    case ClaimName(c) => ClaimKeepsChoice(s, c, sid);
    case ReleaseName(c) => FreedKeepsChoice(s, c, sid);
    case RollBackName(c) => FreedKeepsChoice(s, c, sid);
    case Advance(c) => AdvanceKeepsChoice(s, c, sid);
  }

  lemma ReservationStepKeepsChoice(s: System, step: Step, sid: string)
    requires Enabled(s, step) && sid in s.sessions && TouchesReservation(step)
    ensures SameChoice(s, Apply(s, step), sid)
  {
    hide Reserve, Unreserve, Register, CloseHeld, Settle, HeldOf;
  }

  lemma OtherStepKeepsChoice(s: System, step: Step, sid: string)
    requires Enabled(s, step) && sid in s.sessions && !TouchesSession(step) && !TouchesReservation(step)
    ensures SameChoice(s, Apply(s, step), sid)
  {
    hide Remove, Settle, RegisteredResources, Register, CloseHeld;
  }

  lemma {:induction false} ChoiceStays(s: System, steps: seq<Step>, sid: string)
    requires Legal(s, steps) && sid in s.sessions && NeverStores(s, steps, sid)
    ensures SameChoice(s, Run(s, steps), sid)
    decreases |steps|
  {
    hide Enabled, Apply, StoresChoice;
    if steps != [] {
      if TouchesSession(steps[0]) {
        SessionStepKeepsChoice(s, steps[0], sid);
      } else if TouchesReservation(steps[0]) {
        ReservationStepKeepsChoice(s, steps[0], sid);
      } else {
        OtherStepKeepsChoice(s, steps[0], sid);
      }
      ChoiceStays(Apply(s, steps[0]), steps[1..], sid);
    }
  }

  // ---- What a new call is pinned to ----

  /** The pin of a call at its start: the session's choice when it has one, the process-wide
      choice when it has none or there is no session. */
  lemma NewCallIsPinned(s: System, c: CallId, sess: Option<string>)
    requires Enabled(s, BeginCall(c, sess))
    ensures var t := Apply(s, BeginCall(c, sess));
            && c in t.calls && t.calls[c].sess == sess && t.calls[c].job.Idle?
            && (sess.None? ==> t.calls[c].pin == s.m.activeConn)
            && (sess.Some? && s.sessions[sess.value].conn.name == "" ==> t.calls[c].pin == s.m.activeConn)
            && (sess.Some? && s.sessions[sess.value].conn.name != "" ==> t.calls[c].pin == s.sessions[sess.value].conn.name)
  {
  }

  /** A choice governs the calls that follow: until the session stores another, every call begun
      for it is pinned to the key it chose, whatever else happens, also when that connection is
      gone; while the session has made none, to the process-wide choice of that moment. */
  lemma ChoiceGovernsLaterCalls(s: System, steps: seq<Step>, sid: string, c: CallId)
    requires sid in s.sessions && Legal(s, steps) && NeverStores(s, steps, sid)
    requires Enabled(Run(s, steps), BeginCall(c, Some(sid)))
    ensures var key := s.sessions[sid].conn.name;
            var u := Run(s, steps);
            var t := Apply(u, BeginCall(c, Some(sid)));
            c in t.calls && t.calls[c].pin == if key != "" then key else u.m.activeConn
  {
    ChoiceStays(s, steps, sid);
    NewCallIsPinned(Run(s, steps), c, Some(sid));
    hide Apply, Enabled, Run, Legal;
  }

  /** What is registered under a key stays its pool until the key is gone for good. */
  lemma {:induction false} RegisteredUntilGone(s: System, steps: seq<Step>, key: string)
    requires Inv(s) && s.phase.Serving? && Legal(s, steps)
    requires key in s.ever && (key in s.m.connections ==> s.m.connections[key] == s.ever[key])
    ensures var t := Run(s, steps);
            key in t.m.connections ==> key in s.m.connections && t.m.connections[key] == s.m.connections[key]
    decreases |steps|
  {
    hide Inv, Apply, Enabled;
    if steps != [] {
      var u := Apply(s, steps[0]);
      PinTheorems.StepSettles(s, steps[0], key);
      ProtocolTheorems.StepKeeps(s, steps[0]);
      if key in u.m.connections {
        PinTheorems.RegisteredIsEver(u, key);
      }
      RegisteredUntilGone(u, steps[1..], key);
    }
  }

  lemma BeginKeepsManager(s: System, c: CallId, sess: Option<string>)
    requires Enabled(s, BeginCall(c, sess))
    ensures Apply(s, BeginCall(c, sess)).m == s.m
  {
  }

  /** add_connection followed by any run without another choice of the session: each call begun
      for the session then runs on the added connection, or gets the failing handle for it. */
  lemma CallsAfterAddUseIt(s: System, c: CallId, sid: string, key: string, later: seq<Step>, d: CallId)
    requires Reachable(s) && ProgressTheorems.Complete(s, c, sid, key) && key != ""
    requires Legal(s, later) && NeverStores(s, later, sid) && Enabled(Run(s, later), BeginCall(d, Some(sid)))
    ensures var t := Apply(Run(s, later), BeginCall(d, Some(sid)));
            && d in t.calls && t.calls[d].pin == key
            && (Lookup(t.m, key) == Live(s.m.connections[key]) || Lookup(t.m, key) == Missing(key))
  {
    ProtocolTheorems.ReachableInv(s);
    PinTheorems.RegisteredIsEver(s, key);
    RegisteredUntilGone(s, later, key);
    ChoiceGovernsLaterCalls(s, later, sid, d);
    BeginKeepsManager(Run(s, later), d, Some(sid));
    hide Inv, Legal, Run, NeverStores, Reachable, Apply, Enabled;
  }

  /** The two put together: from every reachable state with room under both limits there is a
      run of the call's own steps after which every later call of the session is on the new
      connection. */
  lemma AddingMovesLaterCalls(s: System, c: CallId, sid: string, name: string) returns (steps: seq<Step>)
    requires Reachable(s) && s.phase == Serving(Http) && c in s.calls && s.calls[c].sess == Some(sid) && s.calls[c].job.Idle?
    requires sid in s.sessions && !s.sessions[sid].conn.closed
    requires name !in s.sessions[sid].conn.owned && |s.sessions[sid].conn.owned| < 5
    requires name != "" && !IsSessionKey(name) && name !in s.m.connections
    requires |Counted(s.m)| < 20
    ensures Legal(s, steps)
    ensures var t, key := Run(s, steps), SessionKey(sid, name);
            forall later, d :: Legal(t, later) && sid in t.sessions && NeverStores(t, later, sid) &&
                               Enabled(Run(t, later), BeginCall(d, Some(sid))) ==>
              var u := Apply(Run(t, later), BeginCall(d, Some(sid)));
              d in u.calls && u.calls[d].pin == key && key in t.m.connections &&
              (key in u.m.connections ==> u.m.connections[key] == t.m.connections[key])
  {
    steps := ProgressTheorems.AddCanComplete(s, c, sid, name);
    DrainTheorems.RunStaysReachable(s, steps);
    KeyIsNotEmpty(sid, name);
    var t, key := Run(s, steps), SessionKey(sid, name);
    assert key in t.m.connections;
    hide Legal, Run, Apply, Enabled, NeverStores, Reachable, SessionKey, IsSessionKey, Counted;
    forall later, d | Legal(t, later) && sid in t.sessions && NeverStores(t, later, sid) && Enabled(Run(t, later), BeginCall(d, Some(sid)))
      ensures var u := Apply(Run(t, later), BeginCall(d, Some(sid)));
              d in u.calls && u.calls[d].pin == key && key in t.m.connections &&
              (key in u.m.connections ==> u.m.connections[key] == t.m.connections[key])
    {
      CallsAfterAddUseIt(t, c, sid, key, later, d);
    }
  }

  lemma KeyIsNotEmpty(sid: string, name: string)
    ensures SessionKey(sid, name) != ""
  {
  }

  // ---- use_connection ----

  /** s with call c pinned to key, and key as its session's choice. */
  function Moved(s: System, c: CallId, sid: string, key: string): System
    requires c in s.calls && sid in s.sessions
  {
    s.(calls := s.calls[c := s.calls[c].(pin := key)],
       sessions := s.sessions[sid := s.sessions[sid].(conn := s.sessions[sid].conn.(name := key))])
  }

  lemma BeginsUse(s: System, c: CallId, name: string)
    requires c in s.calls && s.calls[c].job.Idle? && name != ""
    ensures Enabled(s, UseConnection(c, name))
    ensures Apply(s, UseConnection(c, name)) == WithJob(s, c, Using(Begin(name)))
  {
  }

  lemma UseResolves(s: System, c: CallId, sid: string, name: string, key: string)
    requires c in s.calls && s.calls[c].sess == Some(sid) && sid in s.sessions
    requires key == if name in s.sessions[sid].conn.owned then s.sessions[sid].conn.owned[name] else name
    ensures var u := WithJob(s, c, Using(Begin(name)));
            Enabled(u, Advance(c)) && Apply(u, Advance(c)) == WithJob(s, c, Using(Resolved(name, key)))
  {
  }

  lemma UseChecks(s: System, c: CallId, sid: string, name: string, key: string)
    requires c in s.calls && s.calls[c].sess == Some(sid) && s.calls[c].job.Idle?
    ensures var u := WithJob(s, c, Using(Resolved(name, key)));
            Enabled(u, Advance(c)) &&
            Apply(u, Advance(c)) == (if key in s.m.connections && !(IsSessionKey(name) && key == name)
                                     then WithJob(s, c, Using(Found(key))) else s)
  {
    hide IsSessionKey;
    assert s.calls[c := s.calls[c]] == s.calls;
  }

  lemma UseStores(s: System, c: CallId, sid: string, key: string)
    requires c in s.calls && s.calls[c].sess == Some(sid) && sid in s.sessions
    ensures var u := WithJob(s, c, Using(Found(key)));
            Enabled(u, Advance(c)) &&
            Apply(u, Advance(c)) == WithJob(WithConn(s, sid, s.sessions[sid].conn.(name := key)), c, Using(Chosen(key)))
  {
  }

  lemma UsePins(s: System, c: CallId, key: string)
    requires c in s.calls && s.calls[c].job.Idle?
    ensures var u := WithJob(s, c, Using(Chosen(key)));
            Enabled(u, Advance(c)) && Apply(u, Advance(c)) == s.(calls := s.calls[c := s.calls[c].(pin := key)])
  {
  }

  lemma LastStep(s: System, step: Step)
    requires Enabled(s, step)
    ensures Legal(s, [step]) && Run(s, [step]) == Apply(s, step)
  {
    hide Enabled, Apply;
    ProgressTheorems.NoSteps(Apply(s, step));
    ProgressTheorems.OneMoreStep(s, step, []);
    assert [step] + [] == [step];
  }

  /** A session's use_connection, by its own steps: a name the session owns stands for its own
      connection, any other for the process-wide one. When that is registered, session and pin
      move to it and nothing else changes; when it is not, or the name is an internal key, the
      whole state is as before. */
  lemma UseConnectionOutcome(s: System, c: CallId, sid: string, name: string) returns (steps: seq<Step>)
    requires c in s.calls && s.calls[c].sess == Some(sid) && s.calls[c].job.Idle? && sid in s.sessions && name != ""
    ensures Legal(s, steps) && steps != [] && steps[0] == UseConnection(c, name)
    ensures forall k :: 0 < k < |steps| ==> steps[k] == Advance(c)
    ensures var key := if name in s.sessions[sid].conn.owned then s.sessions[sid].conn.owned[name] else name;
            Run(s, steps) == if key in s.m.connections && !(IsSessionKey(name) && key == name) then Moved(s, c, sid, key) else s
  {
    hide Enabled, Apply, Legal, Run, IsSessionKey;
    var key := if name in s.sessions[sid].conn.owned then s.sessions[sid].conn.owned[name] else name;
    BeginsUse(s, c, name);
    UseResolves(s, c, sid, name, key);
    UseChecks(s, c, sid, name, key);
    var s1, s2 := WithJob(s, c, Using(Begin(name))), WithJob(s, c, Using(Resolved(name, key)));
    if key in s.m.connections && !(IsSessionKey(name) && key == name) {
      UseStores(s, c, sid, key);
      var s3, chosen := WithJob(s, c, Using(Found(key))), WithConn(s, sid, s.sessions[sid].conn.(name := key));
      UsePins(chosen, c, key);
      LastStep(WithJob(chosen, c, Using(Chosen(key))), Advance(c));
      ProgressTheorems.OneMoreStep(s3, Advance(c), [Advance(c)]);
      steps := [Advance(c)] + [Advance(c)];
      ProgressTheorems.OneMoreStep(s2, Advance(c), steps);
      steps := [Advance(c)] + steps;
    } else {
      LastStep(s2, Advance(c));
      steps := [Advance(c)];
    }
    ProgressTheorems.OneMoreStep(s1, Advance(c), steps);
    steps := [Advance(c)] + steps;
    ProgressTheorems.OneMoreStep(s, UseConnection(c, name), steps);
    steps := [UseConnection(c, name)] + steps;
  }

  lemma UseActivatesStdio(s: System, c: CallId, name: string)
    requires c in s.calls && s.calls[c].sess == None && s.calls[c].job.Idle?
    ensures var u := WithJob(s, c, Using(Begin(name)));
            Enabled(u, Advance(c)) &&
            Apply(u, Advance(c)) == if name in s.m.connections
                                    then WithJob(s.(m := s.m.(activeConn := name)), c, Using(Chosen(name))) else s
  {
    assert s.calls[c := s.calls[c]] == s.calls;
  }

  /** The same over stdio, where the process-wide choice moves. */
  lemma StdioUseConnectionOutcome(s: System, c: CallId, name: string) returns (steps: seq<Step>)
    requires c in s.calls && s.calls[c].sess == None && s.calls[c].job.Idle? && name != ""
    ensures Legal(s, steps) && steps != [] && steps[0] == UseConnection(c, name)
    ensures forall k :: 0 < k < |steps| ==> steps[k] == Advance(c)
    ensures Run(s, steps) == if name in s.m.connections
                             then s.(m := s.m.(activeConn := name), calls := s.calls[c := s.calls[c].(pin := name)]) else s
  {
    hide Enabled, Apply, Legal, Run;
    BeginsUse(s, c, name);
    UseActivatesStdio(s, c, name);
    var s1 := WithJob(s, c, Using(Begin(name)));
    if name in s.m.connections {
      var active := s.(m := s.m.(activeConn := name));
      UsePins(active, c, name);
      LastStep(WithJob(active, c, Using(Chosen(name))), Advance(c));
      ProgressTheorems.OneMoreStep(s1, Advance(c), [Advance(c)]);
      steps := [Advance(c)] + [Advance(c)];
    } else {
      LastStep(s1, Advance(c));
      steps := [Advance(c)];
    }
    ProgressTheorems.OneMoreStep(s, UseConnection(c, name), steps);
    steps := [UseConnection(c, name)] + steps;
  }
}
