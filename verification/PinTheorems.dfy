/** A tool call stays on one server: what a pinned lookup returns over a whole run. */
module PinTheorems {
  import opened ManagerSpec
  import opened Protocol
  import opened ProtocolInvariant
  import CallSteps
  import AddSteps
  import ProtocolTheorems
  import SessionSpec

  /** The steps by which call c moves its own pin, or ends. */
  predicate MovesPin(s: System, step: Step, c: CallId) {
    step == EndCall(c) ||
    (step == Advance(c) && CanAdvance(s, c) && SwitchOf(s.calls[c]).Chosen?)
  }

  predicate NeverMoves(s: System, steps: seq<Step>, c: CallId)
    requires Legal(s, steps)
    decreases |steps|
  {
    steps == [] || (!MovesPin(s, steps[0], c) && NeverMoves(Apply(s, steps[0]), steps[1..], c))
  }

  /** What was ever registered under a key is fixed; a key that has gone, and a tool-pack
      marker that has been cleared, do not come back. */
  ghost predicate Settled(s: System, t: System, key: string) {
    && t.phase == s.phase
    && (key in s.ever ==> key in t.ever && t.ever[key] == s.ever[key])
    && (key in s.ever && key !in s.m.connections ==> key !in t.m.connections)
    && (key in s.ever && key !in s.m.toolPacks ==> key !in t.m.toolPacks)
  }

  lemma RegisteredIsEver(s: System, key: string)
    requires Inv(s) && s.phase.Serving? && key in s.m.connections
    ensures key in s.ever && s.ever[key] == s.m.connections[key]
  {
    hide CapOk, PlacesOk, CallsOk, SessionsOk, Exclusive, PendingOk, NoLeak, Coherent;
  }

  lemma FinalizeSettled(s: System, c: CallId, clientOk: bool, description: string, serverType: ServerType, pack: string, key: string)
    requires Inv(s) && CanFinalize(s, c)
    ensures Settled(s, DoFinalize(s, c, clientOk, description, serverType, pack), key)
  {
    hide Inv;
    AddSteps.ReservedKeyUnregistered(s, c);
    AddSteps.FinalizeShape(s, c, clientOk, description, serverType, pack);
  }

  /** The steps of an add up to publication, and after it. */
  predicate ReservingStep(step: Step) {
    step.ClaimName? || step.ReserveKey? || step.OpenTunnel?
  }

  predicate OpeningStep(step: Step) {
    step.OpenPool? || step.FailIo? || step.Finalize?
  }

  predicate ReleasingStep(step: Step) {
    step.UnreserveKey? || step.ReleaseName?
  }

  predicate EndingStep(step: Step) {
    step.CheckEnded? || step.RollBackName? || step.RemoveAdded?
  }

  lemma ReservingStepSettles(s: System, step: Step, key: string)
    requires Inv(s) && Enabled(s, step) && s.phase.Serving? && ReservingStep(step)
    ensures Settled(s, Apply(s, step), key)
  {
    hide Inv, SessionSpec.Claim, Settle;
  }

  lemma OpeningStepSettles(s: System, step: Step, key: string)
    requires Inv(s) && Enabled(s, step) && s.phase.Serving? && OpeningStep(step)
    ensures Settled(s, Apply(s, step), key)
  {
    hide Inv, Settle, HeldOf, PoolLimit;
    match step
    case Finalize(c, clientOk, description, serverType, pack) =>
      FinalizeSettled(s, c, clientOk, description, serverType, pack, key);
    case _ =>
  }

  lemma LateStepSettles(s: System, step: Step, key: string)
    requires Enabled(s, step) && (ReleasingStep(step) || EndingStep(step))
    ensures Settled(s, Apply(s, step), key)
  {
    hide Settle, SessionSpec.Release, RegisteredResources;
  }

  lemma OtherStepSettles(s: System, step: Step, key: string)
    requires Enabled(s, step) && s.phase.Serving?
    requires !ReservingStep(step) && !OpeningStep(step) && !ReleasingStep(step) && !EndingStep(step)
    ensures Settled(s, Apply(s, step), key)
  {
    hide Settle, RegisteredResources;
  }

  lemma StepSettles(s: System, step: Step, key: string)
    requires Inv(s) && Enabled(s, step) && s.phase.Serving?
    ensures Settled(s, Apply(s, step), key)
  {
    hide Inv, Apply, Enabled, Settled;
    if ReservingStep(step) {
      ReservingStepSettles(s, step, key);
    } else if OpeningStep(step) {
      OpeningStepSettles(s, step, key);
    } else if ReleasingStep(step) || EndingStep(step) {
      LateStepSettles(s, step, key);
    } else {
      OtherStepSettles(s, step, key);
    }
  }

  ghost predicate KeepsPin(s: System, t: System, c: CallId)
    requires c in s.calls
  {
    c in t.calls && t.calls[c].pin == s.calls[c].pin
  }

  lemma ReservingStepKeepsPin(s: System, step: Step, c: CallId)
    requires Enabled(s, step) && c in s.calls && ReservingStep(step)
    ensures KeepsPin(s, Apply(s, step), c)
  {
    hide SessionSpec.Claim, Reserve;
  }

  lemma OpeningStepKeepsPin(s: System, step: Step, c: CallId)
    requires Enabled(s, step) && c in s.calls && OpeningStep(step)
    ensures KeepsPin(s, Apply(s, step), c)
  {
    hide Register, CloseHeld, Settle, HeldOf, PoolLimit;
  }

  lemma ReleasingStepKeepsPin(s: System, step: Step, c: CallId)
    requires Enabled(s, step) && c in s.calls && ReleasingStep(step)
    ensures KeepsPin(s, Apply(s, step), c)
  {
    hide SessionSpec.Release, Unreserve;
  }

  lemma EndingStepKeepsPin(s: System, step: Step, c: CallId)
    requires Enabled(s, step) && c in s.calls && EndingStep(step)
    ensures KeepsPin(s, Apply(s, step), c)
  {
    hide SessionSpec.Release, Remove, TearDown, Settle, RegisteredResources;
  }

  lemma SwitchKeepsPin(s: System, d: CallId, c: CallId)
    requires CanAdvance(s, d) && c in s.calls && (d != c || !SwitchOf(s.calls[c]).Chosen?)
    ensures KeepsPin(s, DoAdvance(s, d), c)
  {
    hide SetActive, SessionSpec.Resolve;
  }

  lemma OtherStepKeepsPin(s: System, step: Step, c: CallId)
    requires Enabled(s, step) && c in s.calls && !MovesPin(s, step, c) && !step.Advance?
    requires !ReservingStep(step) && !OpeningStep(step) && !ReleasingStep(step) && !EndingStep(step)
    ensures KeepsPin(s, Apply(s, step), c)
  {
    hide Remove, Settle, RegisteredResources;
  }

  lemma StepKeepsPin(s: System, step: Step, c: CallId)
    requires Enabled(s, step) && c in s.calls && !MovesPin(s, step, c)
    ensures KeepsPin(s, Apply(s, step), c)
  {
    if step.Advance? {
      SwitchKeepsPin(s, step.c, c);
      hide DoAdvance, KeepsPin;
    } else {
      hide Enabled, Apply, KeepsPin, MovesPin;
      if ReservingStep(step) {
        ReservingStepKeepsPin(s, step, c);
      } else if OpeningStep(step) {
        OpeningStepKeepsPin(s, step, c);
      } else if ReleasingStep(step) {
        ReleasingStepKeepsPin(s, step, c);
      } else if EndingStep(step) {
        EndingStepKeepsPin(s, step, c);
      } else {
        OtherStepKeepsPin(s, step, c);
      }
    }
  }

  /** Over any run in which the call does not switch, its pin stays, and a lookup returns the
      handle it would have returned at the start or, from some point on for good, the
      failing handle for that very name. */
  lemma {:induction false} PinStability(s: System, steps: seq<Step>, c: CallId)
    requires Inv(s) && c in s.calls && Legal(s, steps) && NeverMoves(s, steps, c)
    ensures var t := Run(s, steps);
            && c in t.calls && t.calls[c].pin == s.calls[c].pin
            && (Lookup(t.m, t.calls[c].pin) == Lookup(s.m, s.calls[c].pin) ||
                Lookup(t.m, t.calls[c].pin) == Missing(s.calls[c].pin))
    decreases |steps|
  {
    hide Inv, Apply, Enabled, MovesPin;
    CallSteps.CallAndSession(s, c);
    var pin := s.calls[c].pin;
    if steps != [] {
      var u := Apply(s, steps[0]);
      StepKeepsPin(s, steps[0], c);
      StepSettles(s, steps[0], pin);
      ProtocolTheorems.StepKeeps(s, steps[0]);
      PinStability(u, steps[1..], c);
      if pin in u.m.connections {
        RegisteredIsEver(u, pin);
        RegisteredIsEver(s, pin);
      }
    }
  }

  /** A cleared tool-pack marker stays cleared for the rest of the process. */
  lemma {:induction false} ClearedPackStaysCleared(s: System, steps: seq<Step>, key: string)
    requires Inv(s) && s.phase.Serving? && Legal(s, steps)
    requires key in s.ever && key !in s.m.toolPacks
    ensures key !in Run(s, steps).m.toolPacks
    decreases |steps|
  {
    hide Inv, Apply, Enabled;
    if steps != [] {
      StepSettles(s, steps[0], key);
      ProtocolTheorems.StepKeeps(s, steps[0]);
      ClearedPackStaysCleared(Apply(s, steps[0]), steps[1..], key);
    }
  }

  /** The same for a call of the running server: its tools see one server, or an error. */
  lemma PinnedCallStaysOnOneServer(s: System, steps: seq<Step>, c: CallId)
    requires Reachable(s) && c in s.calls && Legal(s, steps) && NeverMoves(s, steps, c)
    ensures var t := Run(s, steps);
            && c in t.calls && t.calls[c].pin == s.calls[c].pin
            && (Lookup(t.m, t.calls[c].pin) == Lookup(s.m, s.calls[c].pin) ||
                Lookup(t.m, t.calls[c].pin) == Missing(s.calls[c].pin))
  {
    ProtocolTheorems.ReachableInv(s);
    PinStability(s, steps, c);
  }
}
