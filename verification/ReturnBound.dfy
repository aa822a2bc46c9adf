/** Every add returns: in any run of the server, after at most 13 steps of its own, whatever
    becomes of its I/O and whatever else interleaves. */
module ReturnBound {
  import opened Wrappers
  import opened ManagerSpec
  import opened Protocol
  import opened ProtocolInvariant
  import opened SessionSteps
  import opened DrainTheorems
  import SessionSpec

  /** The steps of an add: its lock sections and the outcomes of its I/O. */
  predicate IsAddStep(step: Step) {
    step.ClaimName? || step.ReserveKey? || step.OpenTunnel? || step.OpenPool? || step.FailIo? || step.Finalize? ||
    step.UnreserveKey? || step.ReleaseName? || step.CheckEnded? || step.RollBackName? || step.RemoveAdded? ||
    step.Advance?
  }

  predicate OwnStep(step: Step, c: CallId) {
    IsAddStep(step) && step.c == c
  }

  predicate InAdd(s: System, c: CallId) {
    c in s.calls && s.calls[c].job.Adding?
  }

  // ---- Own steps ----

  lemma TunnelIsNearer(s: System, c: CallId)
    requires CanOpenTunnel(s, c)
    ensures Nearer(s, Apply(s, OpenTunnel(c)), c)
  {
    hide Nearer, SameEnds, WithJob;
    var t := Allocate(s, HeldBy(c));
    SameSessions(s, t);
    JobIsNearer(s, t, c, Adding(AddOf(s, c).(tunnel := Some(s.next))));
  }

  lemma PoolIsNearer(s: System, c: CallId, configured: int)
    requires CanOpenPool(s, c)
    ensures Nearer(s, Apply(s, OpenPool(c, configured)), c)
  {
    hide Nearer, SameEnds, WithJob, PoolLimit;
    var t, a := Allocate(s, HeldBy(c)), AddOf(s, c);
    SameSessions(s, t);
    JobIsNearer(s, t, c, Adding(a.(pool := Some(Pool(s.next, PoolLimit(a.key, configured))))));
  }

  lemma FinalizeIsNearer(s: System, c: CallId, clientOk: bool, description: string, serverType: ServerType, pack: string)
    requires CanFinalize(s, c)
    ensures Nearer(s, Apply(s, Finalize(c, clientOk, description, serverType, pack)), c)
  {
    hide Nearer, SameEnds, WithJob, Settle, HeldOf, Register;
    var a := AddOf(s, c);
    var o := Opened(a.pool.value, a.tunnel, clientOk, description, serverType, pack);
    var (m, ok) := Register(s.m, a.key, o, false);
    var t := s.(m := m,
                ever := if ok then s.ever[a.key := o.pool] else s.ever,
                place := Settle(s.place, HeldOf(a.pool, a.tunnel), if ok then RegisteredAt(a.key) else Released));
    SameSessions(s, t);
    JobIsNearer(s, t, c, Adding(a.(pc := Unpending(ok), tunnel := None, pool := None)));
  }

  /** Every step of its own, failing or not, brings an add nearer to its return. */
  lemma OwnStepIsNearer(s: System, step: Step)
    requires IsAddStep(step) && Enabled(s, step) && InAdd(s, step.c)
    ensures Nearer(s, Apply(s, step), step.c)
  {
    hide Nearer, Apply;
    match step
    case ClaimName(c) => ClaimIsNearer(s, c);
    case ReserveKey(c) => ReserveIsNearer(s, c);
    case OpenTunnel(c) => TunnelIsNearer(s, c);
    case OpenPool(c, configured) => PoolIsNearer(s, c, configured);
    case FailIo(c) => FailIsNearer(s, c);
    case Finalize(c, clientOk, description, serverType, pack) =>
      FinalizeIsNearer(s, c, clientOk, description, serverType, pack);
    case UnreserveKey(c) => UnreserveIsNearer(s, c);
    case ReleaseName(c) => ReleaseIsNearer(s, c);
    case CheckEnded(c) => CheckIsNearer(s, c);
    case RollBackName(c) => RollBackIsNearer(s, c);
    case RemoveAdded(c) => RemoveIsNearer(s, c);
    case Advance(c) => AdvanceIsNearer(s, c);
  }

  // ---- Steps of others ----

  ghost predicate SameCall(s: System, t: System, c: CallId) {
    c in s.calls && c in t.calls && t.calls[c] == s.calls[c]
  }

  lemma OtherAddStep(s: System, step: Step, c: CallId)
    requires IsAddStep(step) && Enabled(s, step) && InAdd(s, step.c) && step.c != c && c in s.calls
    ensures SameCall(s, Apply(s, step), c)
  {
    hide Enabled, Apply, SameEnds, Rank;
    OwnStepIsNearer(s, step);
  }

  lemma OtherSwitch(s: System, d: CallId, c: CallId)
    requires CanAdvance(s, d) && c in s.calls && c != d
    ensures SameCall(s, DoAdvance(s, d), c)
  {
    SectionKeepsEnds(s, d, SwitchOf(s.calls[d]));
    hide SwitchSection, AfterSection, SwitchOf, SameEnds;
  }

  lemma OtherStep(s: System, step: Step, c: CallId)
    requires !IsAddStep(step) && Enabled(s, step) && InAdd(s, c)
    ensures SameCall(s, Apply(s, step), c)
  {
    hide Remove, Settle, RegisteredResources, Register, CloseHeld, SessionSpec.Close;
  }

  lemma AddStepIsAdding(s: System, step: Step)
    requires IsAddStep(step) && Enabled(s, step) && !step.Advance?
    ensures InAdd(s, step.c)
  {
  }

  /** What is not a step of the add itself leaves it where it is. */
  lemma OthersLeaveAdd(s: System, step: Step, c: CallId)
    requires InAdd(s, c) && Enabled(s, step) && !OwnStep(step, c)
    ensures SameCall(s, Apply(s, step), c)
  {
    if !IsAddStep(step) {
      OtherStep(s, step, c);
      hide Enabled, Apply;
    } else if step.Advance? {
      OtherSwitch(s, step.c, c);
      hide DoAdvance;
    } else {
      AddStepIsAdding(s, step);
      OtherAddStep(s, step, c);
      hide Enabled, Apply;
    }
  }

  // ---- Runs ----

  function OwnSteps(steps: seq<Step>, c: CallId): nat {
    if steps == [] then 0 else (if OwnStep(steps[0], c) then 1 else 0) + OwnSteps(steps[1..], c)
  }

  /** The add of c is under way in every state of the run, the last one included. */
  predicate UnderWay(s: System, steps: seq<Step>, c: CallId)
    requires Legal(s, steps)
    decreases |steps|
  {
    InAdd(s, c) && (steps != [] ==> UnderWay(Apply(s, steps[0]), steps[1..], c))
  }

  lemma {:induction false} OwnStepsAreRanked(s: System, steps: seq<Step>, c: CallId)
    requires Legal(s, steps) && UnderWay(s, steps, c)
    ensures InAdd(Run(s, steps), c) && OwnSteps(steps, c) + Rank(AddOf(Run(s, steps), c)) <= Rank(AddOf(s, c))
    decreases |steps|
  {
    hide Enabled, Apply, Rank, IsAddStep, SameEnds;
    if steps != [] {
      var step, t := steps[0], Apply(s, steps[0]);
      if OwnStep(step, c) {
        OwnStepIsNearer(s, step);
      } else {
        OthersLeaveAdd(s, step, c);
      }
      OwnStepsAreRanked(t, steps[1..], c);
    }
  }

  lemma RankBounds(a: Add)
    ensures 1 <= Rank(a) <= 13
  {
  }

  /** In any run from any state, an add that is still under way at the end has made at most 12
      steps of its own: with its 13th it has returned. */
  lemma AddReturnsWithin13(s: System, steps: seq<Step>, c: CallId)
    requires Legal(s, steps) && UnderWay(s, steps, c)
    ensures OwnSteps(steps, c) <= 12
  {
    hide Rank;
    OwnStepsAreRanked(s, steps, c);
    RankBounds(AddOf(s, c));
    RankBounds(AddOf(Run(s, steps), c));
  }
}
