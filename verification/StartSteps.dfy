/** The invariant while main adds the configured connections, and when serving begins. */
module StartSteps {
  import opened Wrappers
  import opened SessionKeys
  import opened ManagerSpec
  import opened Protocol
  import opened ProtocolInvariant
  import opened PlaceSteps

  /** Nothing but the manager and its resources exists yet. */
  lemma StartingPlaces(s: System)
    requires StartingOk(s) && AllPlaced(s.place, s.next) && RegisteredOk(s.m, s.place) && ClosedOk(s.m.closed, s.place) && RegisteredApart(s.m)
    requires forall c: CallId, r: Resource :: r in s.place ==> s.place[r] != HeldBy(c)
    ensures PlacesOk(s)
  {
  }

  lemma NothingHeld(s: System)
    requires StartingOk(s) && PlacesOk(s)
    ensures forall c: CallId, r: Resource :: r in s.place ==> s.place[r] != HeldBy(c)
  {
    forall c, r
      ensures r in s.place ==> s.place[r] != HeldBy(c)
    {
      assert !Holds(s, c, r);
    }
  }

  ghost predicate StartInv(s: System) {
    Coherent(s.m) && CapOk(s.m) && PlacesOk(s) && StartingOk(s)
  }

  lemma NoSessionKeysCounted(m: Manager)
    requires m.pendingAdds == {} && forall k :: k in m.connections ==> !IsSessionKey(k)
    ensures CapOk(m)
  {
    assert Counted(m) == {};
  }

  lemma TearDownStart(s: System, name: string)
    requires StartInv(s)
    ensures StartInv(RemoveKey(s, name)) && name !in RemoveKey(s, name).m.connections
    ensures RemoveKey(s, name).next == s.next
  {
    hide PlacesOk, CapOk;
    TearDownCoherent(s.m, name);
    NoSessionKeysCounted(RemoveKey(s, name).m);
    RemovingPlaces(s, RemoveKey(s, name), name);
  }

  lemma FreshKeepsRegistered(m: Manager, m': Manager, place: map<Resource, Place>, r: Resource, p: Place)
    requires RegisteredOk(m, place) && m'.connections == m.connections && m'.tunnelClosers == m.tunnelClosers
    requires r !in place && !p.RegisteredAt?
    ensures RegisteredOk(m', place[r := p])
  {
    forall k, x
      ensures Registers(m', k, x) <==> x in place[r := p] && place[r := p][x] == RegisteredAt(k)
    {
      assert Registers(m', k, x) == Registers(m, k, x);
    }
  }

  /** A resource opened and closed again. */
  lemma OpenedAndClosed(s: System, t: System)
    requires StartInv(s)
    requires t == s.(next := s.next + 1, place := s.place[s.next := Released], m := s.m.(closed := s.m.closed + multiset{s.next}))
    ensures StartInv(t)
  {
    hide RegisteredOk, CapOk;
    NothingHeld(s);
    NoSessionKeysCounted(t.m);
    assert s.next !in s.place;
    FreshKeepsRegistered(s.m, t.m, s.place, s.next, Released);
    StartingPlaces(t);
  }

  ghost predicate RegisteredNow(s: System, t: System, name: string, o: Opened) {
    && o.pool.id == s.next && (o.tunnel.Some? ==> o.tunnel.value == s.next + 1)
    && t == s.(m := Publish(s.m, name, o),
               next := s.next + if o.tunnel.Some? then 2 else 1,
               place := if o.tunnel.Some? then s.place[s.next := RegisteredAt(name)][s.next + 1 := RegisteredAt(name)]
                        else s.place[s.next := RegisteredAt(name)])
  }

  lemma RegisteredNowPlaces(s: System, t: System, name: string, o: Opened)
    requires StartInv(s) && name !in s.m.connections && RegisteredNow(s, t, name, o)
    ensures RegisteredOk(t.m, t.place) && RegisteredApart(t.m)
  {
    hide RegisteredOk, RegisteredApart, Coherent, CapOk, ClosedOk, HeldOk, HeldApart, Publish;
    assert s.next !in s.place && s.next + 1 !in s.place;
    var one := s.place[s.next := HeldBy(0)];
    FreshKeepsRegistered(s.m, s.m, s.place, s.next, HeldBy(0));
    var both := if o.tunnel.Some? then one[s.next + 1 := HeldBy(0)] else one;
    if o.tunnel.Some? {
      FreshKeepsRegistered(s.m, s.m, one, s.next + 1, HeldBy(0));
    }
    RegisteredPublished(s.m, name, o, both);
    assert t.place == Settle(both, HeldOf(Some(o.pool), o.tunnel), RegisteredAt(name));
  }

  lemma StartRegisters(s: System, t: System, name: string, o: Opened)
    requires StartInv(s) && name !in s.m.connections && !IsSessionKey(name) && RegisteredNow(s, t, name, o)
    ensures StartInv(t)
  {
    hide CapOk, RegisteredOk, RegisteredApart, Coherent, IsSessionKey;
    NothingHeld(s);
    PublishCoherent(s.m, name, o);
    NoSessionKeysCounted(t.m);
    RegisteredNowPlaces(s, t, name, o);
    assert s.next !in s.place && s.next + 1 !in s.place;
    StartingPlaces(t);
  }

  lemma StartupFailureKeeps(s: System, name: string, io: StartupIo)
    requires Inv(s) && CanStartup(s, name) && !io.Opens?
    ensures Inv(DoStartup(s, name, io))
  {
    hide CapOk, PlacesOk, Coherent, RemoveKey;
    var t := RemoveKey(s, name);
    TearDownStart(s, name);
    match io
    case TunnelFails =>
    case OpenFails(tunnel) =>
      if tunnel {
        OpenedAndClosed(t, DoStartup(s, name, io));
      }
    case PingFails(tunnel) =>
      var mid := t.(next := t.next + 1, place := t.place[t.next := Released], m := t.m.(closed := t.m.closed + multiset{t.next}));
      OpenedAndClosed(t, mid);
      if tunnel {
        OpenedAndClosed(mid, DoStartup(s, name, io));
      } else {
        assert DoStartup(s, name, io).m.closed == mid.m.closed;
      }
  }

  lemma StartupKeeps(s: System, name: string, io: StartupIo)
    requires Inv(s) && CanStartup(s, name)
    ensures Inv(DoStartup(s, name, io))
  {
    hide CapOk, PlacesOk, Coherent, RemoveKey;
    match io
    case Opens(tunnel, configured, clientOk, description, serverType, pack) =>
      var t := RemoveKey(s, name);
      TearDownStart(s, name);
      var o := Opened(Pool(t.next, PoolLimit(name, configured)), if tunnel then Some(t.next + 1) else None,
                      clientOk, description, serverType, pack);
      RegisterFree(t.m, name, o);
      StartRegisters(t, DoStartup(s, name, io), name, o);
    case _ =>
      StartupFailureKeeps(s, name, io);
  }

  lemma RegisterFree(m: Manager, key: string, o: Opened)
    requires key !in m.connections
    ensures Register(m, key, o, true).0 == Publish(m, key, o)
  {
  }

  lemma ServeKeeps(s: System, transport: Transport)
    requires Inv(s) && CanServe(s)
    ensures Inv(DoServe(s, transport))
  {
    hide CapOk, Coherent, RegisteredOk, ClosedOk, AllPlaced, RegisteredApart;
    var t := DoServe(s, transport);
    assert EverOk(t) by {
      forall sid, k | BelongsTo(sid, k)
        ensures k !in t.ever
      {
        BelongingIsSessionKey(sid, k);
      }
    }
    assert HeldOk(t) by {
      forall c, r
        ensures Holds(t, c, r) <==> r in t.place && t.place[r] == HeldBy(c)
      {
        assert Holds(s, c, r) == Holds(t, c, r);
      }
    }
  }
}
