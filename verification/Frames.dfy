/** What a step leaves alone: the parts of the invariant about other calls and sessions
    survive any change that touches other keys only. */
module Frames {
  import opened SessionKeys
  import opened Protocol
  import opened ProtocolInvariant

  /** From s to t, registrations, reservations and slots change at `keys` only, ended
      sessions stay ended, and no process-wide name comes or goes while sessions exist. */
  ghost predicate TouchesOnly(s: System, t: System, keys: set<string>) {
    && s.phase.Serving? && t.phase == s.phase
    && s.ever.Keys <= t.ever.Keys <= s.ever.Keys + keys
    && s.m.pendingAdds - keys <= t.m.pendingAdds
    && t.m.connections.Keys <= s.m.connections.Keys + keys
    && (forall k :: k in s.m.connections && !IsSessionKey(k) ==> k in t.m.connections)
    && (s.phase.transport == Http ==> forall k :: k in keys ==> IsSessionKey(k))
    && s.sessions.Keys <= t.sessions.Keys
    && (forall sid :: Ended(s, sid) ==> Ended(t, sid))
    && (forall sid :: sid in s.sessions ==> s.sessions[sid].slots - keys <= t.sessions[sid].slots)
    && (forall sid, n :: sid in s.sessions && n in s.sessions[sid].conn.owned && SessionKey(sid, n) !in keys ==>
          Ended(t, sid) || n in t.sessions[sid].conn.owned)
  }

  /** The stdio transport removes nothing. */
  ghost predicate StdioKeeps(s: System, t: System) {
    s.phase == Serving(Stdio) ==> s.m.connections.Keys <= t.m.connections.Keys
  }

  lemma CallStays(s: System, t: System, keys: set<string>, call: Call)
    requires TouchesOnly(s, t, keys) && CallOk(s, call)
    requires InFlight(call) ==> call.job.add.key !in keys
    requires StdioKeeps(s, t)
    ensures CallOk(t, call)
  {
    if call.job.Adding? {
      var a := call.job.add;
      assert AddOk(s, call.sess, a);
      assert AddOk(t, call.sess, a);
    }
  }

  /** Calls that did not change keep their part, if their key is another one. */
  lemma CallsStay(s: System, t: System, keys: set<string>)
    requires CallsOk(s) && TouchesOnly(s, t, keys) && StdioKeeps(s, t)
    requires forall d :: d in t.calls ==>
               CallOk(t, t.calls[d]) ||
               (d in s.calls && t.calls[d] == s.calls[d] && (InFlight(s.calls[d]) ==> s.calls[d].job.add.key !in keys))
    ensures CallsOk(t)
  {
    forall d | d in t.calls && d in s.calls && t.calls[d] == s.calls[d] && (InFlight(s.calls[d]) ==> s.calls[d].job.add.key !in keys)
      ensures CallOk(t, t.calls[d])
    {
      CallStays(s, t, keys, s.calls[d]);
    }
  }

  /** Sessions that did not change keep their part. */
  lemma SessionsStay(s: System, t: System, keys: set<string>)
    requires SessionsOk(s) && TouchesOnly(s, t, keys) && (s.phase.transport == Http || s.sessions == map[])
    requires forall x :: x in t.sessions ==>
               SessionOk(t, x, t.sessions[x]) || (x in s.sessions && t.sessions[x] == s.sessions[x])
    ensures SessionsOk(t)
  {
    forall x | x in t.sessions && x in s.sessions && t.sessions[x] == s.sessions[x]
      ensures SessionOk(t, x, t.sessions[x])
    {
      var q := s.sessions[x];
      assert SessionOk(s, x, q);
      assert forall n :: n in q.conn.owned ==> !IsSessionKey(n);
    }
  }

  lemma ExclusiveStays(s: System, t: System, c: CallId)
    requires Exclusive(s)
    requires forall d :: d in t.calls && d != c ==> d in s.calls && t.calls[d] == s.calls[d]
    requires c in t.calls && InFlight(t.calls[c]) ==>
               (c in s.calls && InFlight(s.calls[c]) && s.calls[c].job.add.key == t.calls[c].job.add.key) ||
               (forall d :: d in s.calls && d != c && InFlight(s.calls[d]) ==> s.calls[d].job.add.key != t.calls[c].job.add.key)
    ensures Exclusive(t)
  {
  }

  /** The keys other than c's keep the calls that reserve them. */
  lemma PendingStays(s: System, t: System, c: CallId)
    requires PendingOk(s)
    requires forall d :: d in s.calls && d != c ==> d in t.calls && t.calls[d] == s.calls[d]
    requires forall k :: k in t.m.pendingAdds ==>
               Reserves(t, c, k) || (k in s.m.pendingAdds && !Reserves(s, c, k))
    ensures PendingOk(t)
  {
    forall k | k in t.m.pendingAdds
      ensures exists d :: Reserves(t, d, k)
    {
      if !Reserves(t, c, k) {
        var d :| Reserves(s, d, k);
        assert Reserves(t, d, k);
      }
    }
  }

  /** The keys c does not remove stay due for removal. */
  lemma NoLeakStays(s: System, t: System, c: CallId)
    requires NoLeak(s)
    requires forall d :: d in s.calls && d != c ==> d in t.calls && t.calls[d] == s.calls[d]
    requires forall sid, k {:trigger BelongsTo(sid, k)} ::
               Ended(t, sid) && ValidId(sid) && BelongsTo(sid, k) && k in t.m.connections ==>
                 k in t.sessions[sid].cleanup || Removes(t, c, k) ||
                 (Ended(s, sid) && k in s.m.connections && k !in s.sessions[sid].cleanup && !Removes(s, c, k))
    ensures NoLeak(t)
  {
    forall sid, k | Ended(t, sid) && ValidId(sid) && BelongsTo(sid, k) && k in t.m.connections
      ensures k in t.sessions[sid].cleanup || exists d :: Removes(t, d, k)
    {
      if k !in t.sessions[sid].cleanup && !Removes(t, c, k) {
        var d :| Removes(s, d, k);
        assert Removes(t, d, k);
      }
    }
  }

  /** Places depend on nothing but the resources in sight. */
  lemma PlacesStay(s: System, t: System)
    requires PlacesOk(s)
    requires t.place == s.place && t.next == s.next
    requires t.m.connections == s.m.connections && t.m.tunnelClosers == s.m.tunnelClosers && t.m.closed == s.m.closed
    requires forall d :: d in t.calls && t.calls[d].job.Adding? ==>
               (t.calls[d].job.add.pool.None? && t.calls[d].job.add.tunnel.None?) ||
               (d in s.calls && s.calls[d].job.Adding? && t.calls[d].job.add.pool == s.calls[d].job.add.pool &&
                t.calls[d].job.add.tunnel == s.calls[d].job.add.tunnel)
    requires forall d :: d in s.calls && s.calls[d].job.Adding? ==>
               (s.calls[d].job.add.pool.None? && s.calls[d].job.add.tunnel.None?) ||
               (d in t.calls && t.calls[d].job.Adding? && t.calls[d].job.add.pool == s.calls[d].job.add.pool &&
                t.calls[d].job.add.tunnel == s.calls[d].job.add.tunnel)
    ensures PlacesOk(t)
  {
    forall c, r
      ensures Holds(t, c, r) <==> Holds(s, c, r)
    {
    }
    forall k, r
      ensures Registers(t.m, k, r) <==> Registers(s.m, k, r)
    {
    }
  }
}
