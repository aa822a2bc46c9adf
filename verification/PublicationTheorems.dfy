/** What an add puts where: the connection that was opened, described and detected, under its
    own key, and nothing else anywhere; and how it is listed afterwards. */
module PublicationTheorems {
  import opened Wrappers
  import opened SessionKeys
  import opened ManagerSpec
  import opened ConnectionList
  import opened Protocol
  import opened ProtocolInvariant
  import ProtocolTheorems
  import SessionSpec

  lemma FinalizedIsPublished(s: System, c: CallId, clientOk: bool, description: string, serverType: ServerType, pack: string)
    requires CanFinalize(s, c) && AddOf(s, c).key !in s.m.connections
    ensures var a := AddOf(s, c);
            var o := Opened(a.pool.value, a.tunnel, clientOk, description, serverType, pack);
            Apply(s, Finalize(c, clientOk, description, serverType, pack)).m == Publish(s.m, a.key, o)
  {
    hide Publish, Settle, HeldOf, CloseHeld, IsSessionKey;
  }

  /** The publishing step of any add, in every reachable state. */
  lemma FinalizeAddsExactly(s: System, c: CallId, clientOk: bool, description: string, serverType: ServerType, pack: string)
    requires Reachable(s) && CanFinalize(s, c)
    ensures var a := AddOf(s, c);
            var o := Opened(a.pool.value, a.tunnel, clientOk, description, serverType, pack);
            var t := Apply(s, Finalize(c, clientOk, description, serverType, pack));
            && AddsExactly(s.m, t.m, a.key, o) && t.m.pendingAdds == s.m.pendingAdds && t.m.closed == s.m.closed
            && t.sessions == s.sessions && (IsSessionKey(a.key) ==> t.m.activeConn == s.m.activeConn)
  {
    ProtocolTheorems.PublicationFindsNameFree(s, c);
    ProtocolTheorems.AlwaysCoherent(s);
    FinalizedIsPublished(s, c, clientOk, description, serverType, pack);
    var a := AddOf(s, c);
    PublishAddsExactly(s.m, a.key, Opened(a.pool.value, a.tunnel, clientOk, description, serverType, pack));
    FinalizeKeepsSessions(s, c, clientOk, description, serverType, pack);
    hide Reachable, Publish, Apply, AddsExactly, Coherent, IsSessionKey;
  }

  lemma FinalizeKeepsSessions(s: System, c: CallId, clientOk: bool, description: string, serverType: ServerType, pack: string)
    requires CanFinalize(s, c)
    ensures Apply(s, Finalize(c, clientOk, description, serverType, pack)).sessions == s.sessions
  {
    hide Register, Settle, HeldOf;
  }

  /** A pool opened for a name takes the configured number of connections, or the default; for a
      session it takes at most two. */
  lemma OpenedPoolLimit(s: System, c: CallId, configured: int)
    requires Enabled(s, OpenPool(c, configured))
    ensures var key := AddOf(s, c).key;
            var t := Apply(s, OpenPool(c, configured));
            && AddAt(t, c, Pending) && AddOf(t, c).pool.Some?
            && var n := AddOf(t, c).pool.value.maxOpen;
               && (!IsSessionKey(key) && configured > 0 ==> n == configured)
               && (!IsSessionKey(key) && configured <= 0 ==> n == 10)
               && (IsSessionKey(key) && configured == 1 ==> n == 1)
               && (IsSessionKey(key) && configured != 1 ==> n == 2)
  {
    hide IsSessionKey;
  }

  // ---- How it is listed ----

  /** After an add of name in a session, list_connections shows it once: under that name, with
      the description given, as the active one. */
  lemma AddedIsListed(was: Manager, now: Manager, sc: SessionSpec.SessionConn, name: string, o: Opened,
                      entries: seq<Entry>, keys: seq<string>)
    requires SessionSpec.WellKeyed(sc) && ValidId(sc.id) && name in sc.owned
    requires AddsExactly(was, now, SessionKey(sc.id, name), o)
    requires Listing(entries, keys, now, sc, SessionKey(sc.id, name))
    ensures exists i :: 0 <= i < |entries| && entries[i] == Entry(name, o.description, true)
    ensures forall i, j :: 0 <= i < |entries| && 0 <= j < |entries| && entries[i].active && entries[j].active ==> i == j
  {
    hide SessionKey, IsSessionKey, ValidId;
    var key := SessionKey(sc.id, name);
    assert sc.owned[name] == key && key in sc.owned.Values;
    assert key in VisibleKeys(now, sc);
    assert key in keys;
    var i :| 0 <= i < |keys| && keys[i] == key;
    assert Shows(entries[i], now, sc, key, key);
    SessionKeyInjective(sc.id, entries[i].name, sc.id, name);
    assert entries[i] == Entry(name, o.description, true);
    OnlyActive(entries, keys, now, sc, key);
  }

  lemma OnlyActive(entries: seq<Entry>, keys: seq<string>, m: Manager, sc: SessionSpec.SessionConn, active: string)
    requires Listing(entries, keys, m, sc, active)
    ensures forall i, j :: 0 <= i < |entries| && 0 <= j < |entries| && entries[i].active && entries[j].active ==> i == j
  {
    hide VisibleKeys, SessionSpec.IsDisplayName;
    forall i, j | 0 <= i < |entries| && 0 <= j < |entries| && entries[i].active && entries[j].active
      ensures i == j
    {
      assert Shows(entries[i], m, sc, active, keys[i]) && Shows(entries[j], m, sc, active, keys[j]);
    }
  }

  /** Over stdio the same for a process-wide name. */
  lemma AddedIsListedStdio(was: Manager, now: Manager, name: string, o: Opened, entries: seq<Entry>, keys: seq<string>)
    requires !IsSessionKey(name) && AddsExactly(was, now, name, o)
    requires Listing(entries, keys, now, SessionSpec.SessionConn("", "", map[], false), name)
    ensures exists i :: 0 <= i < |entries| && entries[i] == Entry(name, o.description, true)
  {
    hide IsSessionKey;
    var sc := SessionSpec.SessionConn("", "", map[], false);
    assert name in VisibleKeys(now, sc);
    assert name in keys;
    var i :| 0 <= i < |keys| && keys[i] == name;
    assert Shows(entries[i], now, sc, name, name);
    assert entries[i] == Entry(name, o.description, true);
  }

  // ---- At startup ----

  lemma StartedIsRegistered(s: System, name: string, tunnel: bool, configured: int, clientOk: bool, description: string,
                            serverType: ServerType, pack: string)
    requires CanStartup(s, name)
    ensures var io := Opens(tunnel, configured, clientOk, description, serverType, pack);
            var o := Opened(Pool(s.next, PoolLimit(name, configured)), if tunnel then Some(s.next + 1) else None,
                            clientOk, description, serverType, pack);
            DoStartup(s, name, io).m == Register(TearDown(s.m, name), name, o, true).0
  {
    hide Register, TearDown, Settle, RegisteredResources, IsSessionKey, PoolLimit;
  }

  /** A configured connection that opens is registered with exactly what was opened and given,
      whether or not its name was registered before. */
  lemma StartupAddsExactly(s: System, name: string, tunnel: bool, configured: int, clientOk: bool, description: string,
                           serverType: ServerType, pack: string)
    requires Reachable(s) && CanStartup(s, name)
    ensures var io := Opens(tunnel, configured, clientOk, description, serverType, pack);
            var o := Opened(Pool(s.next, if configured > 0 then configured else 10),
                            if tunnel then Some(s.next + 1) else None, clientOk, description, serverType, pack);
            AddsExactly(s.m, DoStartup(s, name, io).m, name, o)
  {
    var o := Opened(Pool(s.next, if configured > 0 then configured else 10),
                    if tunnel then Some(s.next + 1) else None, clientOk, description, serverType, pack);
    assert PoolLimit(name, configured) == o.pool.maxOpen by { hide IsSessionKey; }
    ProtocolTheorems.AlwaysCoherent(s);
    StartedIsRegistered(s, name, tunnel, configured, clientOk, description, serverType, pack);
    TearDownCoherent(s.m, name);
    TearDownIsExact(s.m, name);
    var t := TearDown(s.m, name);
    RegisterAddsExactly(t, name, o, true);
    hide DoStartup, Register, TearDown, Coherent, Reachable, HasUnder, PoolLimit, IsSessionKey;
    ElsewhereComposes(s.m, t, Register(t, name, o, true).0, name);
  }

  lemma ElsewhereComposes(m: Manager, t: Manager, u: Manager, key: string)
    requires SameElsewhere(m, t, key) && SameElsewhere(t, u, key)
    ensures SameElsewhere(m, u, key)
  {
    hide OthersKept;
    KeptCompose(m.connections, t.connections, u.connections, key);
    KeptCompose(m.configs, t.configs, u.configs, key);
    KeptCompose(m.serverTypes, t.serverTypes, u.serverTypes, key);
    KeptCompose(m.toolPacks, t.toolPacks, u.toolPacks, key);
    KeptCompose(m.clients, t.clients, u.clients, key);
    KeptCompose(m.tunnelClosers, t.tunnelClosers, u.tunnelClosers, key);
  }
}
