/** The inductive invariant of the protocol, in named parts. */
module ProtocolInvariant {
  import opened Wrappers
  import opened SessionKeys
  import opened ManagerSpec
  import opened Protocol
  import SessionSpec

  // ---- Vocabulary ----

  /** A key a session (or, without one, the process) may use: a process-wide name or its own. */
  predicate OwnOrShared(sess: Option<string>, key: string) {
    IsSessionKey(key) ==> sess.Some? && BelongsTo(sess.value, key)
  }

  /** An add that has its key to itself: claimed in its session, or reserved in the manager. */
  predicate InFlight(call: Call) {
    call.job.Adding? && call.job.add.pc != Checked && (call.job.add.pc == Claimed ==> call.sess.Some?)
  }

  predicate Reserving(pc: AddPc) {
    pc == Pending || pc.Unpending?
  }

  predicate BeforeRegistration(pc: AddPc) {
    pc == Claimed || pc == Pending || pc == Unpending(false) || pc == Releasing
  }

  predicate AfterRegistration(pc: AddPc) {
    pc == Unpending(true) || pc == EndCheck || pc.Activating? || AfterEnd(pc)
  }

  /** Positions reached only once the session has ended. */
  predicate AfterEnd(pc: AddPc) {
    pc == RemovingEnded || pc == RollbackRelease || pc == RollbackRemove
  }

  /** Positions from which the add removes its key if the session has ended. */
  predicate WillRemove(pc: AddPc) {
    pc == Unpending(true) || pc == EndCheck || AfterEnd(pc)
  }

  ghost predicate Ended(s: System, sid: string) {
    sid in s.sessions && s.sessions[sid].conn.closed
  }

  // ---- The parts ----

  ghost predicate SessionOk(s: System, sid: string, q: Session) {
    && ValidId(sid) && q.conn.id == sid
    && SessionSpec.WellKeyed(q.conn)
    && |q.slots| <= MAX_SESSION_CONNECTIONS
    && q.cleanup <= q.slots
    && (forall k :: k in q.slots ==> BelongsTo(sid, k))
    && (forall n :: n in q.conn.owned ==> n !in s.m.connections)
    && (if q.conn.closed then q.conn.owned == map[]
        else q.cleanup == {} && q.slots == q.conn.owned.Values && |q.slots| == |q.conn.owned|)
    && (q.conn.name != "" ==> q.conn.name in s.ever && OwnOrShared(Some(sid), q.conn.name))
  }

  ghost predicate SwitchOk(s: System, sess: Option<string>, sw: Switch) {
    match sw
    case Begin(_) => true
    case Resolved(name, key) =>
      sess.Some? && (IsSessionKey(key) ==> key == name || BelongsTo(sess.value, key))
    case Found(key) => sess.Some? && key in s.ever && OwnOrShared(sess, key)
    case Chosen(key) => key in s.ever && OwnOrShared(sess, key)
  }

  /** An activation switches to the connection just added, unless the session has ended. */
  ghost predicate ActivationOk(s: System, sess: Option<string>, a: Add, sw: Switch) {
    match sw
    case Begin(name) => name == a.name
    case Resolved(name, key) => name == a.name && (sess.Some? && !Ended(s, sess.value) ==> key == a.key)
    case _ => true
  }

  ghost predicate AddOk(s: System, sess: Option<string>, a: Add) {
    && !IsSessionKey(a.name)
    && a.key == (if sess.Some? then SessionKey(sess.value, a.name) else a.name)
    && (sess.Some? ==> a.name !in s.m.connections)
    && (a.pc == Checked || a.pc == EndCheck || a.pc == Releasing ==> sess.Some?)
    && (a.pc != Pending ==> a.tunnel.None? && a.pool.None?)
    && (a.pool.Some? && IsSessionKey(a.key) ==> a.pool.value.maxOpen <= SESSION_CONN_MAX_OPEN)
    && (Reserving(a.pc) ==> a.key in s.m.pendingAdds)
    && (BeforeRegistration(a.pc) && (a.pc == Claimed ==> sess.Some?) ==> a.key !in s.ever)
    && (AfterRegistration(a.pc) ==> a.key in s.ever)
    && (AfterRegistration(a.pc) && sess.None? ==> a.key in s.m.connections)
    && (AfterEnd(a.pc) ==> sess.Some? && Ended(s, sess.value))
    && (sess.Some? && a.pc != Checked ==>
          sess.value in s.sessions && a.key in s.sessions[sess.value].slots &&
          (!Ended(s, sess.value) ==> a.name in s.sessions[sess.value].conn.owned))
    && (a.pc.Activating? ==> SwitchOk(s, sess, a.pc.sw) && ActivationOk(s, sess, a, a.pc.sw))
  }

  ghost predicate CallOk(s: System, call: Call) {
    && s.phase.Serving?
    && (if s.phase.transport == Http then call.sess.Some? && call.sess.value in s.sessions else call.sess.None?)
    && call.pin in s.ever && OwnOrShared(call.sess, call.pin)
    && (call.job.Using? ==> SwitchOk(s, call.sess, call.job.sw))
    && (call.job.Adding? ==> AddOk(s, call.sess, call.job.add))
  }

  ghost predicate SessionsOk(s: System) {
    forall sid :: sid in s.sessions ==> SessionOk(s, sid, s.sessions[sid])
  }

  ghost predicate CallsOk(s: System) {
    forall c :: c in s.calls ==> CallOk(s, s.calls[c])
  }

  /** At most one add per key is in flight. */
  ghost predicate Exclusive(s: System) {
    forall c1, c2 ::
      c1 in s.calls && c2 in s.calls && InFlight(s.calls[c1]) && InFlight(s.calls[c2]) && c1 != c2 ==>
        s.calls[c1].job.add.key != s.calls[c2].job.add.key
  }

  ghost predicate Reserves(s: System, c: CallId, key: string) {
    c in s.calls && s.calls[c].job.Adding? && Reserving(s.calls[c].job.add.pc) && s.calls[c].job.add.key == key
  }

  /** Every reservation has its add. */
  ghost predicate PendingOk(s: System) {
    forall k :: k in s.m.pendingAdds ==> exists c :: Reserves(s, c, k)
  }

  /** No key has been registered twice, process-wide names stay, and a session's keys are
      among its slots. */
  ghost predicate EverOk(s: System) {
    && (forall k :: k in s.m.connections ==> k in s.ever && s.ever[k] == s.m.connections[k])
    && (forall k :: k in s.ever && !IsSessionKey(k) ==> k in s.m.connections)
    && (forall sid, k {:trigger BelongsTo(sid, k)} ::
          ValidId(sid) && BelongsTo(sid, k) && (k in s.ever || k in s.m.pendingAdds) ==>
            sid in s.sessions && k in s.sessions[sid].slots &&
            (!Ended(s, sid) && k in s.ever ==> k in s.m.connections))
    && (s.phase == Serving(Stdio) ==>
          s.sessions == map[] && forall k :: k in s.ever || k in s.m.pendingAdds ==> !IsSessionKey(k))
  }

  ghost predicate Removes(s: System, c: CallId, key: string) {
    c in s.calls && s.calls[c].job.Adding? && WillRemove(s.calls[c].job.add.pc) && s.calls[c].job.add.key == key
  }

  /** What an ended session still has registered is due for removal. */
  ghost predicate NoLeak(s: System) {
    forall sid, k {:trigger BelongsTo(sid, k)} ::
      Ended(s, sid) && ValidId(sid) && BelongsTo(sid, k) && k in s.m.connections ==>
        k in s.sessions[sid].cleanup || exists c :: Removes(s, c, k)
  }

  ghost predicate CapOk(m: Manager) {
    && |Counted(m)| <= MAX_TOTAL_SESSION_CONNECTIONS
    && forall k :: k in m.connections && IsSessionKey(k) ==> m.connections[k].maxOpen <= SESSION_CONN_MAX_OPEN
  }

  ghost predicate Holds(s: System, c: CallId, r: Resource) {
    c in s.calls && s.calls[c].job.Adding? && r in HeldOf(s.calls[c].job.add.pool, s.calls[c].job.add.tunnel)
  }

  ghost predicate Registers(m: Manager, key: string, r: Resource) {
    r in RegisteredResources(m, key)
  }

  ghost predicate AllPlaced(place: map<Resource, Place>, next: Resource) {
    forall r: Resource :: r in place <==> r < next
  }

  ghost predicate HeldOk(s: System) {
    forall c: CallId, r: Resource :: Holds(s, c, r) <==> r in s.place && s.place[r] == HeldBy(c)
  }

  ghost predicate RegisteredOk(m: Manager, place: map<Resource, Place>) {
    forall k, r: Resource :: Registers(m, k, r) <==> r in place && place[r] == RegisteredAt(k)
  }

  ghost predicate ClosedOk(closed: multiset<Resource>, place: map<Resource, Place>) {
    forall r: Resource :: closed[r] == if r in place && place[r] == Released then 1 else 0
  }

  /** No add holds, and no key has, one resource as both pool and tunnel. */
  ghost predicate HeldApart(s: System) {
    forall c :: c in s.calls && s.calls[c].job.Adding? ==> Apart(s.calls[c].job.add)
  }

  ghost predicate Apart(a: Add) {
    a.pool.Some? && a.tunnel.Some? ==> a.pool.value.id != a.tunnel.value
  }

  ghost predicate RegisteredApart(m: Manager) {
    forall k :: k in m.tunnelClosers && k in m.connections ==> m.connections[k].id != m.tunnelClosers[k]
  }

  /** `place` is where every resource is. */
  ghost predicate PlacesOk(s: System) {
    && AllPlaced(s.place, s.next)
    && HeldOk(s)
    && RegisteredOk(s.m, s.place)
    && ClosedOk(s.m.closed, s.place)
    && HeldApart(s)
    && RegisteredApart(s.m)
  }

  ghost predicate ServingOk(s: System) {
    && s.phase.Serving?
    && s.m.activeConn in s.m.connections
    && SessionsOk(s) && CallsOk(s) && Exclusive(s) && PendingOk(s) && EverOk(s) && NoLeak(s)
  }

  ghost predicate StartingOk(s: System) {
    && s.phase == Starting
    && s.sessions == map[] && s.calls == map[] && s.ever == map[]
    && s.m.pendingAdds == {}
    && forall k :: k in s.m.connections ==> !IsSessionKey(k)
  }

  ghost predicate Inv(s: System) {
    && Coherent(s.m)
    && CapOk(s.m)
    && PlacesOk(s)
    && (if s.phase == Starting then StartingOk(s) else ServingOk(s))
  }
}
