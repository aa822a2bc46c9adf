/** Where every pool and tunnel is, under the steps that open, publish and close them. */
module PlaceSteps {
  import opened Wrappers
  import opened ManagerSpec
  import opened Protocol
  import opened ProtocolInvariant

  ghost predicate SamePlacesOfOthers(s: System, t: System, c: CallId) {
    forall d: CallId, r: Resource :: d != c ==> (Holds(t, d, r) <==> Holds(s, d, r))
  }

  // ---- One part at a time ----

  /** Settling what c held, when c holds nothing any more. */
  lemma HeldSettled(s: System, t: System, c: CallId, rs: set<Resource>, to: Place)
    requires HeldOk(s) && SamePlacesOfOthers(s, t, c) && !to.HeldBy?
    requires t.place == Settle(s.place, rs, to)
    requires forall r: Resource :: r in rs <==> Holds(s, c, r)
    requires forall r: Resource :: !Holds(t, c, r)
    ensures HeldOk(t)
  {
    forall d, r
      ensures Holds(t, d, r) <==> r in t.place && t.place[r] == HeldBy(d)
    {
      assert Holds(s, d, r) <==> r in s.place && s.place[r] == HeldBy(d);
    }
  }

  /** Settling what a key had, when no add held any of it. */
  lemma HeldUntouched(s: System, t: System, key: string)
    requires HeldOk(s) && RegisteredOk(s.m, s.place)
    requires t.place == Settle(s.place, RegisteredResources(s.m, key), Released)
    requires forall d: CallId, r: Resource :: Holds(t, d, r) <==> Holds(s, d, r)
    ensures HeldOk(t)
  {
    forall d, r
      ensures Holds(t, d, r) <==> r in t.place && t.place[r] == HeldBy(d)
    {
      assert Holds(s, d, r) <==> r in s.place && s.place[r] == HeldBy(d);
      assert Registers(s.m, key, r) <==> r in s.place && s.place[r] == RegisteredAt(key);
    }
  }

  /** Closing a set of resources that were not closed before. */
  lemma ClosedSettled(closed: multiset<Resource>, closed': multiset<Resource>, place: map<Resource, Place>, rs: set<Resource>)
    requires ClosedOk(closed, place)
    requires forall r: Resource :: r in rs ==> r in place && place[r] != Released
    requires forall r: Resource :: closed'[r] == closed[r] + if r in rs then 1 else 0
    ensures ClosedOk(closed', Settle(place, rs, Released))
  {
  }

  lemma ClosedUntouched(closed: multiset<Resource>, place: map<Resource, Place>, rs: set<Resource>, to: Place)
    requires ClosedOk(closed, place) && to != Released
    requires forall r: Resource :: r in rs ==> r in place && place[r] != Released
    ensures ClosedOk(closed, Settle(place, rs, to))
  {
  }

  lemma RegisteredUntouched(m: Manager, m': Manager, place: map<Resource, Place>, rs: set<Resource>)
    requires RegisteredOk(m, place) && m'.connections == m.connections && m'.tunnelClosers == m.tunnelClosers
    requires forall r: Resource :: r in rs ==> r in place && place[r].HeldBy?
    ensures RegisteredOk(m', Settle(place, rs, Released))
  {
    forall k, r
      ensures Registers(m', k, r) <==> r in Settle(place, rs, Released) && Settle(place, rs, Released)[r] == RegisteredAt(k)
    {
      assert Registers(m', k, r) == Registers(m, k, r);
    }
  }

  lemma RegisteredPublished(m: Manager, key: string, o: Opened, place: map<Resource, Place>)
    requires RegisteredOk(m, place) && RegisteredApart(m) && Coherent(m) && key !in m.connections
    requires forall r: Resource :: r in HeldOf(Some(o.pool), o.tunnel) ==> r in place && place[r].HeldBy?
    requires o.tunnel.Some? ==> o.pool.id != o.tunnel.value
    ensures RegisteredOk(Publish(m, key, o), Settle(place, HeldOf(Some(o.pool), o.tunnel), RegisteredAt(key)))
    ensures RegisteredApart(Publish(m, key, o))
  {
    var m', place' := Publish(m, key, o), Settle(place, HeldOf(Some(o.pool), o.tunnel), RegisteredAt(key));
    forall k, r
      ensures Registers(m', k, r) <==> r in place' && place'[r] == RegisteredAt(k)
    {
      assert Registers(m, k, r) <==> r in place && place[r] == RegisteredAt(k);
      if k != key {
        assert Registers(m', k, r) == Registers(m, k, r);
      }
    }
  }

  lemma TearDownRegisters(m: Manager, key: string, k: string, r: Resource)
    requires m.tunnelClosers.Keys <= m.connections.Keys
    ensures Registers(TearDown(m, key), k, r) <==> k != key && Registers(m, k, r)
  {
  }

  lemma RegisteredRemoved(m: Manager, key: string, place: map<Resource, Place>)
    requires RegisteredOk(m, place) && RegisteredApart(m) && Coherent(m)
    ensures RegisteredOk(TearDown(m, key), Settle(place, RegisteredResources(m, key), Released))
    ensures RegisteredApart(TearDown(m, key))
  {
    var m', place' := TearDown(m, key), Settle(place, RegisteredResources(m, key), Released);
    assert RegisteredApart(m') && m.tunnelClosers.Keys <= m.connections.Keys;
    hide TearDown, Coherent, RegisteredApart;
    forall k, r
      ensures Registers(m', k, r) <==> r in place' && place'[r] == RegisteredAt(k)
    {
      TearDownRegisters(m, key, k, r);
      assert Registers(m, k, r) <==> r in place && place[r] == RegisteredAt(k);
      assert Registers(m, key, r) <==> r in place && place[r] == RegisteredAt(key);
    }
  }

  lemma HeldByItsCall(s: System, c: CallId)
    requires HeldOk(s) && c in s.calls && s.calls[c].job.Adding?
    ensures forall r: Resource :: r in HeldOf(AddOf(s, c).pool, AddOf(s, c).tunnel) ==> r in s.place && s.place[r] == HeldBy(c)
  {
    forall r | r in HeldOf(AddOf(s, c).pool, AddOf(s, c).tunnel)
      ensures r in s.place && s.place[r] == HeldBy(c)
    {
      assert Holds(s, c, r);
    }
  }

  lemma ByItsKey(m: Manager, key: string, place: map<Resource, Place>)
    requires RegisteredOk(m, place)
    ensures forall r: Resource :: r in RegisteredResources(m, key) ==> r in place && place[r] == RegisteredAt(key)
  {
    forall r | r in RegisteredResources(m, key)
      ensures r in place && place[r] == RegisteredAt(key)
    {
      assert Registers(m, key, r);
    }
  }

  // ---- Whole steps ----

  /** Opening: the newest resource goes to the add that opened it. */
  lemma OpeningPlaces(s: System, t: System, c: CallId)
    requires PlacesOk(s) && t.m == s.m
    requires t.next == s.next + 1 && t.place == s.place[s.next := HeldBy(c)]
    requires SamePlacesOfOthers(s, t, c) && HeldApart(t)
    requires forall r: Resource :: Holds(t, c, r) <==> Holds(s, c, r) || r == s.next
    ensures PlacesOk(t)
  {
    assert s.next !in s.place;
    forall d, r
      ensures Holds(t, d, r) <==> r in t.place && t.place[r] == HeldBy(d)
    {
      assert Holds(s, d, r) <==> r in s.place && s.place[r] == HeldBy(d);
    }
    forall k, r
      ensures Registers(t.m, k, r) <==> r in t.place && t.place[r] == RegisteredAt(k)
    {
      assert Registers(s.m, k, r) <==> r in s.place && s.place[r] == RegisteredAt(k);
    }
  }

  /** A failed add closes exactly what it holds, once. */
  lemma FailingPlaces(s: System, t: System, c: CallId)
    requires PlacesOk(s) && c in s.calls && s.calls[c].job.Adding?
    requires t.m == CloseHeld(s.m, AddOf(s, c).pool, AddOf(s, c).tunnel)
    requires t.place == Settle(s.place, HeldOf(AddOf(s, c).pool, AddOf(s, c).tunnel), Released)
    requires t.next == s.next && SamePlacesOfOthers(s, t, c) && HeldApart(t)
    requires forall r: Resource :: !Holds(t, c, r)
    ensures PlacesOk(t)
  {
    var a := AddOf(s, c);
    var held := HeldOf(a.pool, a.tunnel);
    assert Apart(a);
    HeldByItsCall(s, c);
    HeldSettled(s, t, c, held, Released);
    ClosedSettled(s.m.closed, t.m.closed, s.place, held);
    RegisteredUntouched(s.m, t.m, s.place, held);
  }

  /** Publication moves what the add holds under its key. */
  lemma PublishingPlaces(s: System, t: System, c: CallId, o: Opened)
    requires PlacesOk(s) && Coherent(s.m) && c in s.calls && s.calls[c].job.Adding?
    requires AddOf(s, c).pool == Some(o.pool) && AddOf(s, c).tunnel == o.tunnel
    requires AddOf(s, c).key !in s.m.connections && t.m == Publish(s.m, AddOf(s, c).key, o)
    requires t.place == Settle(s.place, HeldOf(Some(o.pool), o.tunnel), RegisteredAt(AddOf(s, c).key))
    requires t.next == s.next && SamePlacesOfOthers(s, t, c) && HeldApart(t)
    requires forall r: Resource :: !Holds(t, c, r)
    ensures PlacesOk(t)
  {
    var a := AddOf(s, c);
    var held := HeldOf(Some(o.pool), o.tunnel);
    assert Apart(a);
    HeldByItsCall(s, c);
    HeldSettled(s, t, c, held, RegisteredAt(a.key));
    ClosedUntouched(s.m.closed, s.place, held, RegisteredAt(a.key));
    RegisteredPublished(s.m, a.key, o, s.place);
  }

  /** Removal closes exactly what was registered under the key, once. */
  lemma RemovingPlaces(s: System, t: System, key: string)
    requires PlacesOk(s) && Coherent(s.m)
    requires t.m == TearDown(s.m, key) && t.place == Settle(s.place, RegisteredResources(s.m, key), Released)
    requires t.next == s.next && HeldApart(t)
    requires forall d: CallId, r: Resource :: Holds(t, d, r) <==> Holds(s, d, r)
    ensures PlacesOk(t)
  {
    var gone := RegisteredResources(s.m, key);
    ByItsKey(s.m, key, s.place);
    HeldUntouched(s, t, key);
    RegisteredRemoved(s.m, key, s.place);
    ClosedByTearDown(s.m, key);
    ClosedSettled(s.m.closed, t.m.closed, s.place, gone);
  }

  lemma ClosedByTearDown(m: Manager, key: string)
    requires Coherent(m) && RegisteredApart(m)
    ensures forall r: Resource :: TearDown(m, key).closed[r] == m.closed[r] + if r in RegisteredResources(m, key) then 1 else 0
  {
  }
}
