/** What one MCP session can see and use, and how much all of them can hold. */
module SessionTheorems {
  import opened Wrappers
  import opened SessionKeys
  import opened ManagerSpec
  import opened Protocol
  import opened ProtocolInvariant
  import CallSteps
  import SessionSteps
  import ManagerSteps
  import ProtocolTheorems
  import SessionSpec
  import opened ConnectionList

  // ---- Isolation ----

  /** In every reachable state what a session sees, has chosen and is pinned to are
      process-wide connections or its own. */
  lemma SessionsAreIsolated(s: System, sid: string)
    requires Reachable(s) && sid in s.sessions
    ensures OwnOrShared(Some(sid), ActiveName(s, Some(sid)))
    ensures forall k :: k in VisibleKeys(s.m, s.sessions[sid].conn) ==> OwnOrShared(Some(sid), k)
    ensures forall c :: c in s.calls && s.calls[c].sess == Some(sid) ==> OwnOrShared(Some(sid), s.calls[c].pin)
  {
    ProtocolTheorems.ReachableInv(s);
    hide CapOk, PlacesOk, Exclusive, PendingOk, NoLeak, StartingOk, Reachable, AddOk, SwitchOk;
    SessionSteps.SessionThere(s, sid);
    CallSteps.PinIsRegistered(s, Some(sid));
    VisibleAreOwn(s, sid);
  }

  lemma VisibleAreOwn(s: System, sid: string)
    requires sid in s.sessions && SessionOk(s, sid, s.sessions[sid])
    ensures forall k :: k in VisibleKeys(s.m, s.sessions[sid].conn) ==> OwnOrShared(Some(sid), k)
  {
    var q := s.sessions[sid];
    forall k | k in VisibleKeys(s.m, q.conn)
      ensures OwnOrShared(Some(sid), k)
    {
      if IsSessionKey(k) {
        var n :| n in q.conn.owned && q.conn.owned[n] == k;
        OwnKeyBelongs(sid, n);
      }
    }
  }

  /** No session's connection is visible to another, whatever names they chose. */
  lemma OthersAreInvisible(s: System, sid: string, other: string, key: string)
    requires Reachable(s) && sid in s.sessions && other in s.sessions && sid != other
    requires BelongsTo(other, key)
    ensures key !in VisibleKeys(s.m, s.sessions[sid].conn)
    ensures ActiveName(s, Some(sid)) != key
  {
    SessionsAreIsolated(s, sid);
    ProtocolTheorems.ReachableInv(s);
    hide CapOk, PlacesOk, Exclusive, PendingOk, NoLeak, StartingOk, Reachable, CallsOk, EverOk, VisibleKeys, ActiveName;
    SessionSteps.SessionThere(s, sid);
    SessionSteps.SessionThere(s, other);
    CallSteps.ValidSession(s, sid);
    CallSteps.ValidSession(s, other);
    BelongingIsSessionKey(other, key);
    if BelongsTo(sid, key) {
      BelongsToOneSession(sid, other, key);
    }
  }

  /** On what a session sees, its names and the manager's keys are the same things: showing
      a key and resolving the shown name gives the key back, and a name that resolves to
      a visible key is what that key is shown as. */
  lemma NamesRoundTrip(s: System, sid: string)
    requires Reachable(s) && sid in s.sessions
    ensures var sc := s.sessions[sid].conn;
            && (forall k, n :: k in VisibleKeys(s.m, sc) && SessionSpec.IsDisplayName(sc, k, n) ==> SessionSpec.Resolve(sc, n) == k)
            && (forall n, k :: !IsSessionKey(n) && SessionSpec.Resolve(sc, n) == k && k in VisibleKeys(s.m, sc) ==>
                  forall shown :: SessionSpec.IsDisplayName(sc, k, shown) <==> shown == n)
  {
    ProtocolTheorems.ReachableInv(s);
    hide CapOk, PlacesOk, Exclusive, PendingOk, NoLeak, StartingOk, Reachable, CallsOk, EverOk;
    SessionSteps.SessionThere(s, sid);
    NamesOfSession(s, sid);
  }

  lemma NamesOfSession(s: System, sid: string)
    requires sid in s.sessions && SessionOk(s, sid, s.sessions[sid]) && Coherent(s.m)
    ensures var sc := s.sessions[sid].conn;
            && (forall k, n :: k in VisibleKeys(s.m, sc) && SessionSpec.IsDisplayName(sc, k, n) ==> SessionSpec.Resolve(sc, n) == k)
            && (forall n, k :: !IsSessionKey(n) && SessionSpec.Resolve(sc, n) == k && k in VisibleKeys(s.m, sc) ==>
                  forall shown :: SessionSpec.IsDisplayName(sc, k, shown) <==> shown == n)
  {
    var sc := s.sessions[sid].conn;
    forall n1, n2 | n1 in sc.owned && n2 in sc.owned && sc.owned[n1] == sc.owned[n2]
      ensures n1 == n2
    {
      SessionKeyInjective(sid, n1, sid, n2);
    }
    forall n | n in sc.owned
      ensures IsSessionKey(sc.owned[n])
    {
      OwnKeyBelongs(sid, n);
    }
  }

  // ---- The name a result carries ----

  /** What a call of an open session is said to run on, when it ends, is a name the session can
      use for exactly the connection the call is pinned to. */
  lemma ReportedNameIsThePin(s: System, c: CallId, sid: string, shown: string)
    requires Reachable(s) && c in s.calls && s.calls[c].sess == Some(sid) && sid in s.sessions && !Ended(s, sid)
    requires SessionSpec.IsDisplayName(s.sessions[sid].conn, s.calls[c].pin, shown)
    ensures SessionSpec.Resolve(s.sessions[sid].conn, shown) == s.calls[c].pin && !IsSessionKey(shown)
  {
    ProtocolTheorems.ReachableInv(s);
    hide CapOk, PlacesOk, Exclusive, PendingOk, NoLeak, StartingOk, Reachable, AddOk, SwitchOk, IsSessionKey, BelongsTo, SessionKey, ValidId;
    SessionSteps.SessionThere(s, sid);
    CallSteps.CallAndSession(s, c);
    CallSteps.ValidSession(s, sid);
    OwnedAreKeys(s.sessions[sid].conn);
    NameOfPin(s, s.calls[c].pin, sid, shown);
  }

  lemma OwnedAreKeys(sc: SessionSpec.SessionConn)
    requires SessionSpec.WellKeyed(sc)
    ensures forall n :: n in sc.owned ==> IsSessionKey(sc.owned[n])
  {
    hide IsSessionKey, SessionKey;
    forall n | n in sc.owned
      ensures IsSessionKey(sc.owned[n])
    {
      OwnKeyBelongs(sc.id, n);
    }
  }

  lemma NameOfPin(s: System, pin: string, sid: string, shown: string)
    requires EverOk(s) && pin in s.ever && OwnOrShared(Some(sid), pin) && ValidId(sid)
    requires sid in s.sessions && !Ended(s, sid) && SessionOk(s, sid, s.sessions[sid])
    requires forall n :: n in s.sessions[sid].conn.owned ==> IsSessionKey(s.sessions[sid].conn.owned[n])
    requires SessionSpec.IsDisplayName(s.sessions[sid].conn, pin, shown)
    ensures SessionSpec.Resolve(s.sessions[sid].conn, shown) == pin && !IsSessionKey(shown)
  {
    hide IsSessionKey, BelongsTo, SessionKey, ValidId;
    var sc := s.sessions[sid].conn;
    if IsSessionKey(pin) {
      assert pin in sc.owned.Values;
    } else {
      assert pin in s.m.connections;
      assert pin !in sc.owned;
    }
  }

  // ---- What a listing shows ----

  /** The names of a listing are pairwise different, and each one resolves to the key it shows. */
  lemma ListedNamesAreDistinct(s: System, sid: string, entries: seq<Entry>, keys: seq<string>, active: string)
    requires Reachable(s) && sid in s.sessions && Listing(entries, keys, s.m, s.sessions[sid].conn, active)
    ensures forall i :: 0 <= i < |entries| ==> SessionSpec.Resolve(s.sessions[sid].conn, entries[i].name) == keys[i]
    ensures forall i, j :: 0 <= i < j < |entries| ==> entries[i].name != entries[j].name
  {
    NamesRoundTrip(s, sid);
    hide Reachable, IsSessionKey, VisibleKeys, SessionSpec.Resolve, SessionSpec.IsDisplayName;
    forall i | 0 <= i < |entries|
      ensures SessionSpec.Resolve(s.sessions[sid].conn, entries[i].name) == keys[i]
    {
      assert keys[i] in keys;
      assert Shows(entries[i], s.m, s.sessions[sid].conn, active, keys[i]);
    }
  }

  // ---- Limits ----

  /** Session connections, registered or being added, never exceed 20. */
  lemma AtMostTwentySessionConnections(s: System)
    requires Reachable(s)
    ensures |Counted(s.m)| <= 20
  {
    ProtocolTheorems.ReachableInv(s);
  }

  ghost function KeysOfSession(m: Manager, sid: string): set<string> {
    set k | k in m.connections.Keys + m.pendingAdds && BelongsTo(sid, k)
  }

  /** One session has at most 5 of them, also while and after it ends. */
  lemma AtMostFivePerSession(s: System, sid: string)
    requires Reachable(s) && sid in s.sessions
    ensures |KeysOfSession(s.m, sid)| <= 5
  {
    ProtocolTheorems.ReachableInv(s);
    hide CapOk, PlacesOk, Exclusive, PendingOk, NoLeak, StartingOk, Reachable, CallsOk, Coherent;
    SessionSteps.SessionThere(s, sid);
    CallSteps.ValidSession(s, sid);
    ManagerSteps.SubsetSize(KeysOfSession(s.m, sid), s.sessions[sid].slots);
  }

  ghost function SumOver<T>(xs: set<T>, f: T -> int): int {
    if xs == {} then 0
    else
      var x :| x in xs;
      f(x) + SumOver(xs - {x}, f)
  }

  lemma OneMore(bound: int, n: int)
    ensures bound * (n + 1) == bound * n + bound
  {
  }

  lemma {:induction false} SumBound<T>(xs: set<T>, f: T -> int, bound: int)
    requires forall x :: x in xs ==> f(x) <= bound
    ensures SumOver(xs, f) <= bound * |xs|
  {
    if xs != {} {
      var x :| x in xs && SumOver(xs, f) == f(x) + SumOver(xs - {x}, f);
      SumBound(xs - {x}, f, bound);
      assert |xs - {x}| == |xs| - 1;
      assert bound * |xs| == bound * |xs - {x}| + bound by { OneMore(bound, |xs - {x}|); }
    }
  }

  ghost function RegisteredSessionKeys(m: Manager): set<string> {
    set k | k in m.connections && IsSessionKey(k)
  }

  /** The adds that have a pool open for a session key. */
  ghost function OpeningCalls(s: System): set<CallId> {
    set c | c in s.calls && s.calls[c].job.Adding? && s.calls[c].job.add.pool.Some? && IsSessionKey(s.calls[c].job.add.key)
  }

  ghost function RegisteredLimit(m: Manager): string -> int {
    (k: string) => if k in m.connections then m.connections[k].maxOpen else 0
  }

  ghost function OpeningLimit(s: System): CallId -> int {
    (c: CallId) =>
      if c in s.calls && s.calls[c].job.Adding? && s.calls[c].job.add.pool.Some? then s.calls[c].job.add.pool.value.maxOpen
      else 0
  }

  lemma OpeningIsPending(s: System, c: CallId)
    requires Inv(s) && c in OpeningCalls(s)
    ensures AddAt(s, c, Pending) && InFlight(s.calls[c])
    ensures AddOf(s, c).key in s.m.pendingAdds && AddOf(s, c).key !in s.m.connections
    ensures AddOf(s, c).pool.value.maxOpen <= SESSION_CONN_MAX_OPEN
  {
    hide Coherent, CapOk, PlacesOk, SessionsOk, SessionOk, CallsOk, Exclusive, PendingOk, NoLeak, StartingOk;
    CallSteps.CallAndSession(s, c);
    assert AddOk(s, s.calls[c].sess, AddOf(s, c));
  }

  /** Distinct adds hold distinct keys, none of them registered yet. */
  lemma {:induction false} OpeningKeys(s: System, cs: set<CallId>) returns (keys: set<string>)
    requires Exclusive(s) && cs <= OpeningCalls(s)
    requires forall c :: c in cs ==> InFlight(s.calls[c]) && AddOf(s, c).key in s.m.pendingAdds && AddOf(s, c).key !in s.m.connections
    ensures |keys| == |cs|
    ensures forall k :: k in keys ==> exists c :: c in cs && s.calls[c].job.add.key == k
    ensures keys <= SessionNames(s.m.pendingAdds) && keys !! s.m.connections.Keys
  {
    if cs == {} {
      keys := {};
    } else {
      var c :| c in cs;
      var rest := OpeningKeys(s, cs - {c});
      keys := rest + {AddOf(s, c).key};
    }
  }

  lemma OpeningArePending(s: System)
    requires Inv(s)
    ensures forall c :: c in OpeningCalls(s) ==>
              InFlight(s.calls[c]) && AddOf(s, c).key in s.m.pendingAdds && AddOf(s, c).key !in s.m.connections
    ensures forall c :: c in OpeningCalls(s) ==> OpeningLimit(s)(c) <= SESSION_CONN_MAX_OPEN
    ensures OpeningCalls(s) != {} ==> Exclusive(s)
  {
    hide Coherent, CapOk, PlacesOk, SessionsOk, CallsOk, PendingOk, NoLeak, EverOk, Exclusive;
    forall c | c in OpeningCalls(s)
      ensures InFlight(s.calls[c]) && AddOf(s, c).key in s.m.pendingAdds && AddOf(s, c).key !in s.m.connections
      ensures OpeningLimit(s)(c) <= SESSION_CONN_MAX_OPEN
    {
      OpeningIsPending(s, c);
    }
  }

  lemma DisjointSize<T>(a: set<T>, b: set<T>)
    requires a !! b
    ensures |a + b| == |a| + |b|
  {
  }

  /** The keys being opened and the registered ones are different, and all counted. */
  lemma TogetherCounted(s: System)
    requires Inv(s)
    ensures |RegisteredSessionKeys(s.m)| + |OpeningCalls(s)| <= |Counted(s.m)|
  {
    OpeningArePending(s);
    RegisteredAreCounted(s.m);
    hide Inv, IsSessionKey, InFlight, Exclusive, OpeningCalls, RegisteredSessionKeys, Counted, SessionNames, OpeningLimit;
    var keys := {};
    if OpeningCalls(s) != {} {
      keys := OpeningKeys(s, OpeningCalls(s));
    }
    DisjointSize(RegisteredSessionKeys(s.m), keys);
    ManagerSteps.SubsetSize(RegisteredSessionKeys(s.m) + keys, Counted(s.m));
  }

  lemma RegisteredAreCounted(m: Manager)
    ensures RegisteredSessionKeys(m) <= Counted(m) && RegisteredSessionKeys(m) <= m.connections.Keys
    ensures SessionNames(m.pendingAdds) <= Counted(m)
  {
    hide IsSessionKey;
  }

  /** The pools of session connections, registered or being opened, allow at most 40 MySQL
      connections together. */
  lemma AtMostFortyServerConnections(s: System)
    requires Reachable(s)
    ensures SumOver(RegisteredSessionKeys(s.m), RegisteredLimit(s.m)) + SumOver(OpeningCalls(s), OpeningLimit(s))
            <= 40
  {
    ProtocolTheorems.ReachableInv(s);
    hide Coherent, PlacesOk, ServingOk, StartingOk, Reachable, OpeningCalls, OpeningLimit, Counted;
    OpeningArePending(s);
    TogetherCounted(s);
    SumBound(RegisteredSessionKeys(s.m), RegisteredLimit(s.m), SESSION_CONN_MAX_OPEN);
    SumBound(OpeningCalls(s), OpeningLimit(s), SESSION_CONN_MAX_OPEN);
  }
}
