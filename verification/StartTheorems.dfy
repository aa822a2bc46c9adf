/** What a failed replacement costs at startup: the entry that was there, and the process when
    that entry was the active one. */
module StartTheorems {
  import opened SessionKeys
  import opened ManagerSpec
  import opened Protocol

  lemma FailedStart(s: System, name: string, io: StartupIo)
    requires CanStartup(s, name) && !io.Opens?
    ensures var t := DoStartup(s, name, io);
            t.phase == Starting && t.m == TearDown(s.m, name).(closed := t.m.closed)
  {
    hide Settle, RegisteredResources, IsSessionKey, TearDown;
    var u := RemoveKey(s, name);
    assert u.phase == Starting && u.m == TearDown(s.m, name);
    hide RemoveKey, OptionSet;
    match io
    case TunnelFails =>
    case OpenFails(tunnel) =>
    case PingFails(tunnel) =>
  }

  /** A failed add of a configured name leaves the registered connections as they were exactly
      when the name is not one of them; every other connection stays in any case. */
  lemma FailedReplaceKeepsPoolIff(s: System, name: string, io: StartupIo)
    requires CanStartup(s, name) && !io.Opens?
    ensures var t := DoStartup(s, name, io);
            && (t.m.connections == s.m.connections <==> name !in s.m.connections)
            && t.m.connections == s.m.connections - {name}
  {
    FailedStart(s, name, io);
    hide DoStartup, IsSessionKey;
    if name !in s.m.connections {
      assert s.m.connections - {name} == s.m.connections;
    }
  }

  /** Whether main can go on to serve after a failed add: it can unless the name was the active
      connection, other registered connections notwithstanding. A connection with an empty name
      would be found under the empty active name. */
  lemma FailedReplaceServesIff(s: System, name: string, io: StartupIo)
    requires CanServe(s) && CanStartup(s, name) && !io.Opens?
    ensures CanServe(DoStartup(s, name, io)) <==>
            name != s.m.activeConn || (name != "" && "" in s.m.connections)
  {
    FailedStart(s, name, io);
    hide DoStartup, IsSessionKey;
  }

  // ---- A run that shows both ----

  const GOOD := Opens(false, 0, true, "", MySQL, "")

  const FIRST: seq<Step> := [Startup("a", GOOD), Startup("b", GOOD)]
  const AGAIN: Step := Startup("a", PingFails(false))

  lemma ShortNamesAreNotKeys()
    ensures !IsSessionKey("a") && !IsSessionKey("b")
  {
  }

  /** A good add to a free name registers it, and makes it active when nothing is. */
  lemma GoodStart(s: System, name: string)
    requires CanStartup(s, name) && name !in s.m.connections && name != ""
    ensures var t := DoStartup(s, name, GOOD);
            && t.phase == Starting && t.m.connections.Keys == s.m.connections.Keys + {name}
            && t.m.activeConn == if s.m.activeConn == "" then name else s.m.activeConn
  {
    hide Settle, RegisteredResources, IsSessionKey;
    var t := DoStartup(s, name, GOOD);
    var pool := t.m.connections[name];
    assert t.m.connections == s.m.connections[name := pool];
    KeysOfUpdate(s.m.connections, name, pool);
  }

  /** Two configured names work, so the process could serve; configuring the first again with
      an address that does not answer removes the working connection, and the process cannot
      serve although the other one is there. */
  lemma FailedReplaceLosesPool()
    ensures Legal(INITIAL, FIRST) && Reachable(Run(INITIAL, FIRST))
    ensures var s := Run(INITIAL, FIRST);
            CanServe(s) && "a" in s.m.connections && Enabled(s, AGAIN) &&
            var t := Apply(s, AGAIN);
            "a" !in t.m.connections && "b" in t.m.connections && !CanServe(t)
  {
    hide IsSessionKey, DoStartup;
    ShortNamesAreNotKeys();
    var s1 := DoStartup(INITIAL, "a", GOOD);
    GoodStart(INITIAL, "a");
    var s2 := DoStartup(s1, "b", GOOD);
    GoodStart(s1, "b");
    assert FIRST[1..] == [Startup("b", GOOD)] && FIRST[1..][1..] == [];
    assert Apply(INITIAL, FIRST[0]) == s1 && Apply(s1, FIRST[1]) == s2;
    assert Legal(s2, []) && Legal(s1, FIRST[1..]) && Run(s1, FIRST[1..]) == Run(s2, []) == s2;
    assert Legal(INITIAL, FIRST) && Run(INITIAL, FIRST) == s2;
    assert "a" in s2.m.connections && "" !in s2.m.connections;
    FailedReplaceKeepsPoolIff(s2, "a", PingFails(false));
    FailedReplaceServesIff(s2, "a", PingFails(false));
    assert Apply(s2, AGAIN) == DoStartup(s2, "a", PingFails(false));
  }
}
