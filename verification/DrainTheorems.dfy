/** What is in progress can always finish: every add can return, and an ended session can be
    cleaned up completely, by its own steps alone and from every reachable state. */
module DrainTheorems {
  import opened Wrappers
  import opened SessionKeys
  import opened ManagerSpec
  import opened Protocol
  import opened ProtocolInvariant
  import opened SessionSteps
  import ProgressTheorems
  import ProtocolTheorems
  import SessionSpec

  // ---- One call's next step ----

  /** How far an add is from returning: the most sections of its own that can still follow,
      whatever the outcome of its I/O. */
  function Rank(a: Add): nat {
    match a.pc
    case Checked => 13
    case Claimed => 12
    case Pending => if a.pool.Some? then 9 else if a.tunnel.Some? then 10 else 11
    case Unpending(ok) => if ok then 8 else 2
    case EndCheck => 7
    case Activating(sw) =>
      (match sw
       case Begin(_) => 6
       case Resolved(_, _) => 5
       case Found(_) => 4
       case Chosen(_) => 3)
    case RollbackRelease => 2
    case RollbackRemove => 1
    case RemovingEnded => 1
    case Releasing => 1
  }

  function NextStep(s: System, c: CallId): Step
    requires c in s.calls && s.calls[c].job.Adding?
  {
    match AddOf(s, c).pc
    case Checked => ClaimName(c)
    case Claimed => ReserveKey(c)
    case Pending => FailIo(c)
    case Unpending(_) => UnreserveKey(c)
    case EndCheck => CheckEnded(c)
    case Activating(_) => Advance(c)
    case RollbackRelease => RollBackName(c)
    case RollbackRemove => RemoveAdded(c)
    case RemovingEnded => RemoveAdded(c)
    case Releasing => ReleaseName(c)
  }

  /** Only call c has moved, and no session has ended or changed what it has to clean up. */
  ghost predicate OnlyMoved(s: System, t: System, c: CallId) {
    && c in s.calls && t.calls.Keys == s.calls.Keys
    && (forall d :: d in s.calls && d != c ==> t.calls[d] == s.calls[d])
    && t.calls[c].sess == s.calls[c].sess
    && SameEnds(s, t)
  }

  ghost predicate Nearer(s: System, t: System, c: CallId) {
    && OnlyMoved(s, t, c) && s.calls[c].job.Adding?
    && (t.calls[c].job.Idle? || (t.calls[c].job.Adding? && Rank(AddOf(t, c)) < Rank(AddOf(s, c))))
  }

  /** A section that gives call c a new job, when it leaves the calls and the ends of the
      sessions alone. */
  lemma JobIsNearer(s: System, t: System, c: CallId, job: Job)
    requires c in s.calls && s.calls[c].job.Adding? && t.calls == s.calls && SameEnds(s, t)
    requires job.Idle? || (job.Adding? && Rank(job.add) < Rank(AddOf(s, c)))
    ensures Nearer(s, WithJob(t, c, job), c)
  {
    hide Rank;
  }

  lemma PcIsNearer(s: System, t: System, c: CallId, pc: AddPc)
    requires c in s.calls && s.calls[c].job.Adding? && t.calls == s.calls && SameEnds(s, t)
    requires Rank(AddOf(s, c).(pc := pc)) < Rank(AddOf(s, c))
    ensures Nearer(s, WithPc(t, c, pc), c)
  {
    hide SameEnds, Nearer, Rank;
    JobIsNearer(s, t, c, Adding(AddOf(t, c).(pc := pc)));
  }

  lemma SameSessions(s: System, t: System)
    requires t.sessions == s.sessions
    ensures SameEnds(s, t)
  {
  }

  lemma OneSessionKept(s: System, t: System, sid: string)
    requires sid in s.sessions && t.sessions.Keys == s.sessions.Keys
    requires forall x :: x in s.sessions && x != sid ==> t.sessions[x] == s.sessions[x]
    requires t.sessions[sid].conn.closed == s.sessions[sid].conn.closed && t.sessions[sid].cleanup == s.sessions[sid].cleanup
    ensures SameEnds(s, t)
  {
  }

  lemma ClaimIsNearer(s: System, c: CallId)
    requires AddAt(s, c, Checked)
    ensures Enabled(s, ClaimName(c)) && Nearer(s, Apply(s, ClaimName(c)), c)
  {
    hide SessionKey, Nearer, SameEnds;
    SameSessions(s, s);
    JobIsNearer(s, s, c, Idle);
    var sess, a := s.calls[c].sess, AddOf(s, c);
    if sess.Some? && sess.value in s.sessions {
      var q := s.sessions[sess.value];
      var t := s.(sessions := s.sessions[sess.value := q.(conn := SessionSpec.Claim(q.conn, a.name).0, slots := q.slots + {a.key})]);
      OneSessionKept(s, t, sess.value);
      PcIsNearer(s, t, c, Claimed);
    }
    hide WithJob, WithPc, SessionSpec.Claim;
  }

  lemma ReserveIsNearer(s: System, c: CallId)
    requires AddAt(s, c, Claimed)
    ensures Enabled(s, ReserveKey(c)) && Nearer(s, Apply(s, ReserveKey(c)), c)
  {
    hide Reserve, Nearer, SameEnds, WithJob, WithPc;
    var t := s.(m := Reserve(s.m, AddOf(s, c).key).0);
    SameSessions(s, t);
    PcIsNearer(s, t, c, Pending);
    PcIsNearer(s, t, c, Releasing);
    JobIsNearer(s, t, c, Idle);
  }

  lemma FailIsNearer(s: System, c: CallId)
    requires AddAt(s, c, Pending)
    ensures Enabled(s, FailIo(c)) && Nearer(s, Apply(s, FailIo(c)), c)
  {
    hide Settle, HeldOf, CloseHeld, Nearer, SameEnds, WithJob;
    var a := AddOf(s, c);
    var t := s.(m := CloseHeld(s.m, a.pool, a.tunnel), place := Settle(s.place, HeldOf(a.pool, a.tunnel), Released));
    SameSessions(s, t);
    JobIsNearer(s, t, c, Adding(a.(pc := Unpending(false), tunnel := None, pool := None)));
  }

  lemma UnreserveIsNearer(s: System, c: CallId)
    requires CanUnreserveKey(s, c)
    ensures Enabled(s, UnreserveKey(c)) && Nearer(s, Apply(s, UnreserveKey(c)), c)
  {
    hide Unreserve, Nearer, SameEnds, WithJob, WithPc;
    var a := AddOf(s, c);
    var t := s.(m := Unreserve(s.m, a.key));
    SameSessions(s, t);
    if s.calls[c].sess.Some? {
      PcIsNearer(s, t, c, if a.pc.ok then EndCheck else Releasing);
    } else if a.pc.ok {
      PcIsNearer(s, t, c, Activating(Begin(a.name)));
    } else {
      JobIsNearer(s, t, c, Idle);
    }
  }

  lemma CheckIsNearer(s: System, c: CallId)
    requires AddAt(s, c, EndCheck)
    ensures Enabled(s, CheckEnded(c)) && Nearer(s, Apply(s, CheckEnded(c)), c)
  {
    hide Nearer, SameEnds, WithPc;
    SameSessions(s, s);
    PcIsNearer(s, s, c, RemovingEnded);
    PcIsNearer(s, s, c, Activating(Begin(AddOf(s, c).name)));
  }

  lemma SectionKeepsEnds(s: System, c: CallId, sw: Switch)
    requires c in s.calls
    ensures var t := SwitchSection(s, c, sw).0;
            SameEnds(s, t) && t.calls.Keys == s.calls.Keys && t.calls[c].sess == s.calls[c].sess &&
            (forall d :: d in s.calls && d != c ==> t.calls[d] == s.calls[d])
  {
    hide IsSessionKey, SetActive, SessionSpec.Resolve;
  }

  /** Where the switch stands next, or what the refusal leads to, is nearer to the return. */
  lemma SwitchRank(s: System, c: CallId)
    requires CanAdvance(s, c) && s.calls[c].job.Adding?
    ensures var sw := SwitchOf(s.calls[c]);
            var job := AfterSection(s.calls[c], SwitchSection(s, c, sw).1);
            job.Idle? || (job.Adding? && Rank(job.add) < Rank(AddOf(s, c)))
  {
    hide IsSessionKey, SetActive, SessionSpec.Resolve;
  }

  lemma AdvanceIsNearer(s: System, c: CallId)
    requires CanAdvance(s, c) && s.calls[c].job.Adding?
    ensures Enabled(s, Advance(c)) && Nearer(s, Apply(s, Advance(c)), c)
  {
    SectionKeepsEnds(s, c, SwitchOf(s.calls[c]));
    SwitchRank(s, c);
    hide SwitchSection, AfterSection, SwitchOf, Rank, SameEnds;
    var (t, r) := SwitchSection(s, c, SwitchOf(s.calls[c]));
    SameSessions(t, WithJob(t, c, AfterSection(s.calls[c], r)));
    EndsCompose(s, t, WithJob(t, c, AfterSection(s.calls[c], r)));
  }

  lemma EndsCompose(s: System, t: System, u: System)
    requires SameEnds(s, t) && SameEnds(t, u)
    ensures SameEnds(s, u)
  {
  }

  lemma FreedKeepsEnds(s: System, c: CallId)
    requires c in s.calls && s.calls[c].job.Adding?
    ensures FreeName(s, c).calls == s.calls && SameEnds(s, FreeName(s, c))
  {
    hide SessionSpec.Release;
    assert forall q: SessionSpec.SessionConn, n :: SessionSpec.Release(q, n).closed == q.closed by { ReleaseKeepsEnd(); }
  }

  lemma ReleaseKeepsEnd()
    ensures forall q: SessionSpec.SessionConn, n :: SessionSpec.Release(q, n).closed == q.closed
  {
  }

  lemma RollBackIsNearer(s: System, c: CallId)
    requires AddAt(s, c, RollbackRelease)
    ensures Enabled(s, RollBackName(c)) && Nearer(s, Apply(s, RollBackName(c)), c)
  {
    hide FreeName, Nearer, SameEnds, WithPc;
    FreedKeepsEnds(s, c);
    PcIsNearer(s, FreeName(s, c), c, RollbackRemove);
  }

  lemma RemoveIsNearer(s: System, c: CallId)
    requires CanRemoveAdded(s, c)
    ensures Enabled(s, RemoveAdded(c)) && Nearer(s, Apply(s, RemoveAdded(c)), c)
  {
    hide Remove, Settle, RegisteredResources, Nearer, SameEnds, WithJob;
    var t := RemoveKey(s, AddOf(s, c).key);
    SameSessions(s, t);
    JobIsNearer(s, t, c, Idle);
  }

  lemma ReleaseIsNearer(s: System, c: CallId)
    requires AddAt(s, c, Releasing)
    ensures Enabled(s, ReleaseName(c)) && Nearer(s, Apply(s, ReleaseName(c)), c)
  {
    hide FreeName, Nearer, SameEnds, WithJob;
    FreedKeepsEnds(s, c);
    JobIsNearer(s, FreeName(s, c), c, Idle);
  }

  /** Whatever section an add has come to, its next one is enabled and brings it nearer to
      its return. */
  lemma NextIsNearer(s: System, c: CallId)
    requires c in s.calls && s.calls[c].job.Adding?
    ensures Enabled(s, NextStep(s, c)) && Nearer(s, Apply(s, NextStep(s, c)), c)
  {
    hide Enabled, Apply, Nearer;
    match AddOf(s, c).pc
    case Checked => ClaimIsNearer(s, c);
    case Claimed => ReserveIsNearer(s, c);
    case Pending => FailIsNearer(s, c);
    case Unpending(_) => UnreserveIsNearer(s, c);
    case EndCheck => CheckIsNearer(s, c);
    case Activating(_) => AdvanceIsNearer(s, c);
    case RollbackRelease => RollBackIsNearer(s, c);
    case RollbackRemove => RemoveIsNearer(s, c);
    case RemovingEnded => RemoveIsNearer(s, c);
    case Releasing => ReleaseIsNearer(s, c);
  }

  // ---- Runs ----

  lemma {:induction false} RunsAppend(s: System, first: seq<Step>, second: seq<Step>)
    requires Legal(s, first) && Legal(Run(s, first), second)
    ensures Legal(s, first + second) && Run(s, first + second) == Run(Run(s, first), second)
    decreases |first|
  {
    hide Enabled, Apply;
    if first == [] {
      assert first + second == second;
    } else {
      RunsAppend(Apply(s, first[0]), first[1..], second);
      assert first + second == [first[0]] + (first[1..] + second);
      ProgressTheorems.OneMoreStep(s, first[0], first[1..] + second);
    }
  }

  lemma RunStaysReachable(s: System, steps: seq<Step>)
    requires Reachable(s) && Legal(s, steps)
    ensures Reachable(Run(s, steps))
  {
    var before :| Legal(INITIAL, before) && s == Run(INITIAL, before);
    hide Legal, Run, Reachable;
    RunsAppend(INITIAL, before, steps);
    ReachedBy(before + steps);
  }

  lemma ReachedBy(steps: seq<Step>)
    requires Legal(INITIAL, steps)
    ensures Reachable(Run(INITIAL, steps))
  {
  }

  /** The steps of a set of calls and of a session's cleanup loop. */
  predicate ActsFor(step: Step, cs: set<CallId>, sid: string) {
    match step
    case ClaimName(c) => c in cs
    case ReserveKey(c) => c in cs
    case FailIo(c) => c in cs
    case UnreserveKey(c) => c in cs
    case CheckEnded(c) => c in cs
    case Advance(c) => c in cs
    case RollBackName(c) => c in cs
    case RemoveAdded(c) => c in cs
    case ReleaseName(c) => c in cs
    case CleanUp(x, _) => x == sid
    case _ => false
  }

  predicate OnlyBy(steps: seq<Step>, cs: set<CallId>, sid: string) {
    forall k :: 0 <= k < |steps| ==> ActsFor(steps[k], cs, sid)
  }

  lemma MovesCompose(s: System, t: System, u: System, c: CallId)
    requires OnlyMoved(s, t, c) && OnlyMoved(t, u, c)
    ensures OnlyMoved(s, u, c)
  {
  }

  lemma NextIsOwn(s: System, c: CallId, sid: string)
    requires c in s.calls && s.calls[c].job.Adding?
    ensures ActsFor(NextStep(s, c), {c}, sid)
  {
  }

  /** From any state, in any phase of any add: the call can return by its own steps, and
      nothing else changes but for what those steps do to the manager. */
  lemma {:induction false} AddCanReturn(s: System, c: CallId, sid: string) returns (steps: seq<Step>)
    requires c in s.calls && s.calls[c].job.Adding?
    ensures Legal(s, steps) && OnlyBy(steps, {c}, sid)
    ensures var t := Run(s, steps); OnlyMoved(s, t, c) && t.calls[c].job.Idle?
    decreases Rank(AddOf(s, c))
  {
    hide Enabled, Apply, Legal, Run, NextStep, ActsFor, SameEnds, Rank;
    NextIsNearer(s, c);
    NextIsOwn(s, c, sid);
    var step := NextStep(s, c);
    var t := Apply(s, step);
    if t.calls[c].job.Idle? {
      ProgressTheorems.NoSteps(t);
      ProgressTheorems.OneMoreStep(s, step, []);
      steps := [step] + [];
    } else {
      var rest := AddCanReturn(t, c, sid);
      ProgressTheorems.OneMoreStep(s, step, rest);
      MovesCompose(s, t, Run(t, rest), c);
      steps := [step] + rest;
    }
  }

  // ---- A whole session ----

  ghost function AddsOf(s: System, sid: string): set<CallId> {
    set c | c in s.calls && s.calls[c].sess == Some(sid) && s.calls[c].job.Adding?
  }

  /** The ended session still is ended, and has the same keys to clean up. */
  ghost predicate StillEnded(s: System, t: System, sid: string) {
    Ended(s, sid) && Ended(t, sid) && t.sessions[sid].cleanup == s.sessions[sid].cleanup
  }

  lemma OneAddLess(s: System, t: System, c: CallId, sid: string)
    requires OnlyMoved(s, t, c) && t.calls[c].job.Idle? && c in AddsOf(s, sid) && Ended(s, sid)
    ensures AddsOf(t, sid) == AddsOf(s, sid) - {c} && StillEnded(s, t, sid)
  {
  }

  lemma OnlyByMore(steps: seq<Step>, cs: set<CallId>, more: set<CallId>, sid: string)
    requires OnlyBy(steps, cs, sid) && cs <= more
    ensures OnlyBy(steps, more, sid)
  {
    forall k | 0 <= k < |steps|
      ensures ActsFor(steps[k], more, sid)
    {
      assert ActsFor(steps[k], cs, sid);
    }
  }

  lemma {:induction false} AddsCanReturn(s: System, sid: string, cs: set<CallId>) returns (steps: seq<Step>)
    requires Ended(s, sid) && cs == AddsOf(s, sid)
    ensures Legal(s, steps) && OnlyBy(steps, cs, sid)
    ensures var t := Run(s, steps); AddsOf(t, sid) == {} && StillEnded(s, t, sid)
    decreases cs
  {
    hide Legal, Run, OnlyMoved, ActsFor;
    if cs == {} {
      ProgressTheorems.NoSteps(s);
      steps := [];
    } else {
      var c :| c in cs;
      var first := AddCanReturn(s, c, sid);
      var t := Run(s, first);
      OneAddLess(s, t, c, sid);
      var rest := AddsCanReturn(t, sid, cs - {c});
      RunsAppend(s, first, rest);
      OnlyByMore(first, {c}, cs, sid);
      OnlyByMore(rest, cs - {c}, cs, sid);
      steps := first + rest;
    }
  }

  lemma CleanUpOne(s: System, sid: string, key: string)
    requires Ended(s, sid) && key in s.sessions[sid].cleanup
    ensures Enabled(s, CleanUp(sid, key))
    ensures var t := Apply(s, CleanUp(sid, key));
            Ended(t, sid) && t.calls == s.calls && t.sessions[sid].cleanup == s.sessions[sid].cleanup - {key}
  {
    hide Remove, Settle, RegisteredResources;
  }

  lemma {:induction false} CleanupCanFinish(s: System, sid: string, keys: set<string>) returns (steps: seq<Step>)
    requires Ended(s, sid) && keys == s.sessions[sid].cleanup
    ensures Legal(s, steps) && OnlyBy(steps, {}, sid)
    ensures var t := Run(s, steps); Ended(t, sid) && t.sessions[sid].cleanup == {} && t.calls == s.calls
    decreases keys
  {
    hide Enabled, Apply, Legal, Run;
    if keys == {} {
      ProgressTheorems.NoSteps(s);
      steps := [];
    } else {
      var key :| key in keys;
      CleanUpOne(s, sid, key);
      var rest := CleanupCanFinish(Apply(s, CleanUp(sid, key)), sid, keys - {key});
      ProgressTheorems.OneMoreStep(s, CleanUp(sid, key), rest);
      steps := [CleanUp(sid, key)] + rest;
    }
  }

  /** From every reachable state an ended session can be drained, by the steps of its own adds
      and of its cleanup loop alone: then its adds have returned, nothing is left to clean up,
      and no part of the manager mentions any key of it. */
  lemma EndedSessionCanDrain(s: System, sid: string) returns (steps: seq<Step>)
    requires Reachable(s) && Ended(s, sid)
    ensures Legal(s, steps) && OnlyBy(steps, AddsOf(s, sid), sid)
    ensures var t := Run(s, steps);
            && Ended(t, sid) && t.sessions[sid].cleanup == {} && AddsOf(t, sid) == {}
            && forall key :: BelongsTo(sid, key) ==> ProtocolTheorems.Forgotten(t.m, key)
  {
    hide Legal, Run, Reachable, BelongsTo, ProtocolTheorems.Forgotten, ActsFor;
    var adds := AddsCanReturn(s, sid, AddsOf(s, sid));
    var u := Run(s, adds);
    var cleanups := CleanupCanFinish(u, sid, u.sessions[sid].cleanup);
    var t := Run(u, cleanups);
    RunsAppend(s, adds, cleanups);
    OnlyByMore(cleanups, {}, AddsOf(s, sid), sid);
    steps := adds + cleanups;
    RunStaysReachable(s, steps);
    assert AddsOf(t, sid) == AddsOf(u, sid);
    forall key | BelongsTo(sid, key)
      ensures ProtocolTheorems.Forgotten(t.m, key)
    {
      assert forall c :: c in t.calls && t.calls[c].sess == Some(sid) && t.calls[c].job.Adding? ==> c in AddsOf(t, sid);
      ProtocolTheorems.EndedSessionLeavesNothing(t, sid, key);
    }
  }
}
