/** The connection manager, the per-session state and the per-call pin as the objects they
    are. Every method is one lock section and is proved against its function in
    ManagerSpec or SessionSpec. */
module ConnectionManager {
  import opened Wrappers
  import opened SessionKeys
  import opened ManagerSpec
  import opened TearDowns
  import SessionSpec

  lemma NoNames()
    ensures SessionNames({}) == {}
  {
  }

  class Manager {
    var connections: map<string, Pool>
    var clients: map<string, Resource>
    var configs: map<string, ConnConfig>
    var serverTypes: map<string, ServerType>
    var toolPacks: map<string, string>
    var activeConn: string
    var tunnelClosers: map<string, Resource>
    var pendingAdds: set<string>
    ghost var closed: multiset<Resource>

    ghost function State(): ManagerSpec.Manager
      reads this
    {
      ManagerSpec.Manager(connections, clients, configs, serverTypes, toolPacks, activeConn, tunnelClosers, pendingAdds, closed)
    }

    constructor ()
      ensures State() == EMPTY
    {
      connections, clients, configs, serverTypes, toolPacks := map[], map[], map[], map[], map[];
      activeConn, tunnelClosers, pendingAdds, closed := "", map[], {}, multiset{};
    }

    /** Counts registered session connections, then those only reserved. */
    method SessionConnCount() returns (n: nat)
      ensures n == |Counted(State())|
    {
      var registered := CountNew(connections.Keys, {});
      var pending := CountNew(pendingAdds, connections.Keys);
      n := registered + pending;
      NoNames();
      CountedNames(State());
      assert {} + connections.Keys == connections.Keys;
    }

    /** One counting loop: the session keys among names that are not known already. */
    static method CountNew(names: set<string>, known: set<string>) returns (n: nat)
      ensures |SessionNames(known)| + n == |SessionNames(known + names)|
    {
      hide IsSessionKey, SessionNames;
      n := 0;
      ghost var seen := known;
      var rest := names;
      while rest != {}
        invariant seen + rest == known + names && known <= seen
        invariant forall k :: k in seen && k in rest ==> k in known
        invariant |SessionNames(known)| + n == |SessionNames(seen)|
        decreases rest
      {
        var key :| key in rest;
        CountOne(seen, key);
        if IsSessionKey(key) && key !in known {
          n := n + 1;
        }
        rest, seen := rest - {key}, seen + {key};
      }
      assert seen == known + names;
    }

    static lemma CountedNames(m: ManagerSpec.Manager)
      ensures Counted(m) == SessionNames(m.connections.Keys + m.pendingAdds)
    {
    }

    /** The reservation at the start of an add-if-absent. */
    method ReserveName(key: string) returns (outcome: ReserveOutcome)
      modifies this`pendingAdds
      ensures (State(), outcome) == Reserve(old(State()), key)
    {
      if key in connections || key in pendingAdds {
        return AlreadyExists;
      }
      if IsSessionKey(key) {
        var count := SessionConnCount();
        if count >= MAX_TOTAL_SESSION_CONNECTIONS {
          return TooManySessionConnections;
        }
      }
      pendingAdds := pendingAdds + {key};
      return Reserved;
    }

    method UnreserveName(key: string)
      modifies this`pendingAdds
      ensures State() == Unreserve(old(State()), key)
    {
      pendingAdds := pendingAdds - {key};
    }

    method TearDownNamed(key: string)
      modifies this
      ensures State() == TearDown(old(State()), key)
    {
      if key in connections {
        CloseRegistered(key);
        connections, clients, configs, serverTypes, toolPacks, tunnelClosers :=
          connections - {key}, clients - {key}, configs - {key}, serverTypes - {key}, toolPacks - {key}, tunnelClosers - {key};
        if activeConn == key {
          activeConn := "";
        }
      }
    }

    /** The Close calls on a registered pool and its tunnel. */
    ghost method CloseRegistered(key: string)
      requires key in connections
      modifies this`closed
      ensures closed == TearDown(old(State()), key).closed
    {
      closed := closed + HeldUnder(State(), key);
    }

    /** cleanupLocal. */
    ghost method CloseLocal(pool: Option<Pool>, tunnel: Option<Resource>)
      modifies this`closed
      ensures State() == CloseHeld(old(State()), pool, tunnel)
    {
      closed := CloseHeld(State(), pool, tunnel).closed;
    }

    static lemma RegistersExactly(m: ManagerSpec.Manager, key: string, o: Opened, replace: bool)
      ensures Register(m, key, o, replace).1 <==> replace || key !in m.connections
      ensures Register(m, key, o, replace).1 && Coherent(m) ==> AddsExactly(m, Register(m, key, o, replace).0, key, o)
    {
      hide TearDown, Publish, CloseHeld, Coherent, AddsExactly;
      if Coherent(m) && (replace || key !in m.connections) {
        RegisterAddsExactly(m, key, o, replace);
      }
    }

    /** The final lock section of an add. */
    method RegisterOpened(key: string, o: Opened, replace: bool) returns (ok: bool)
      modifies this
      ensures (State(), ok) == Register(old(State()), key, o, replace)
      ensures ok <==> replace || key !in old(connections)
      ensures ok && Coherent(old(State())) ==> AddsExactly(old(State()), State(), key, o)
    {
      hide Coherent, AddsExactly, TearDown, Publish;
      RegistersExactly(State(), key, o, replace);
      if key in connections {
        if !replace {
          CloseLocal(Some(o.pool), o.tunnel);
          return false;
        }
      }
      TearDownNamed(key);
      PublishOpened(key, o);
      return true;
    }

    /** The publication itself, under a key that is free now. */
    method PublishOpened(key: string, o: Opened)
      modifies this
      ensures State() == Publish(old(State()), key, o)
    {
      connections := connections[key := o.pool];
      if o.clientOk {
        clients := clients[key := o.pool.id];
      }
      configs := configs[key := ConnConfig(key, o.description)];
      serverTypes := serverTypes[key := o.serverType];
      toolPacks := toolPacks[key := o.pack];
      if o.tunnel.Some? {
        tunnelClosers := tunnelClosers[key := o.tunnel.value];
      }
      if activeConn == "" && !IsSessionKey(key) {
        activeConn := key;
      }
    }

    method Activate(key: string) returns (ok: bool)
      modifies this`activeConn
      ensures (State(), ok) == SetActive(old(State()), key)
    {
      if key !in connections {
        return false;
      }
      activeConn := key;
      return true;
    }

    method RemoveConnection(key: string) returns (ok: bool)
      modifies this
      ensures (State(), ok) == Remove(old(State()), key)
    {
      ok := key in connections;
      if ok {
        TearDownNamed(key);
      }
    }

    /** GetActiveClient; None where the source panics. */
    method GetActiveClient(creates: bool) returns (client: Option<Resource>)
      modifies this`clients
      ensures (State(), client) == ActiveClient(old(State()), creates)
    {
      if activeConn in clients {
        return Some(clients[activeConn]);
      }
      if activeConn in connections {
        if !creates {
          return None;
        }
        clients := clients[activeConn := connections[activeConn].id];
        return Some(connections[activeConn].id);
      }
      return None;
    }

    method DropToolPack(key: string)
      modifies this`toolPacks
      ensures State() == DropPack(old(State()), key)
    {
      toolPacks := toolPacks - {key};
    }

    /** The process-wide keys among `keys`. */
    static ghost function Shared(keys: set<string>): set<string> {
      set k | k in keys && !IsSessionKey(k)
    }

    /** The registered keys of the given owned names. */
    static ghost function Registered(names: set<string>, owned: map<string, string>, keys: set<string>): set<string> {
      set n | n in names && n in owned && owned[n] in keys :: owned[n]
    }

    static lemma OneMoreName(names: set<string>, owned: map<string, string>, keys: set<string>, n: string)
      requires n in owned && n !in names
      requires forall a, b :: a in owned && b in owned && owned[a] == owned[b] ==> a == b
      ensures |Registered(names + {n}, owned, keys)| == |Registered(names, owned, keys)| + if owned[n] in keys then 1 else 0
    {
      var before := Registered(names, owned, keys);
      if owned[n] in keys {
        assert Registered(names + {n}, owned, keys) == before + {owned[n]};
      } else {
        assert Registered(names + {n}, owned, keys) == before;
      }
    }

    static lemma OneMoreKey(seen: set<string>, key: string)
      requires key !in seen
      ensures |Shared(seen + {key})| == |Shared(seen)| + if IsSessionKey(key) then 0 else 1
    {
      hide IsSessionKey;
      if IsSessionKey(key) {
        assert Shared(seen + {key}) == Shared(seen);
      } else {
        assert Shared(seen + {key}) == Shared(seen) + {key};
      }
    }

    static lemma VisibleKeys(keys: set<string>, owned: map<string, string>)
      requires forall a :: a in owned ==> IsSessionKey(owned[a])
      ensures |Shared(keys)| + |Registered(owned.Keys, owned, keys)| ==
              |set k | k in keys && (!IsSessionKey(k) || k in owned.Values)|
    {
      hide IsSessionKey;
      var a, b := Shared(keys), Registered(owned.Keys, owned, keys);
      assert a + b == set k | k in keys && (!IsSessionKey(k) || k in owned.Values);
      assert a !! b;
    }

    static method CountShared(keys: set<string>) returns (n: nat)
      ensures n == |Shared(keys)|
    {
      hide Shared, IsSessionKey;
      n := 0;
      ghost var seen: set<string> := {};
      var rest := keys;
      NoKeys(map[], keys);
      while rest != {}
        invariant seen + rest == keys && seen !! rest
        invariant n == |Shared(seen)|
        decreases rest
      {
        var key :| key in rest;
        OneMoreKey(seen, key);
        if !IsSessionKey(key) {
          n := n + 1;
        }
        rest, seen := rest - {key}, seen + {key};
      }
      assert seen == keys;
    }

    static method CountRegistered(owned: map<string, string>, keys: set<string>) returns (n: nat)
      requires forall a, b :: a in owned && b in owned && owned[a] == owned[b] ==> a == b
      ensures n == |Registered(owned.Keys, owned, keys)|
    {
      hide Registered;
      n := 0;
      ghost var seen: set<string> := {};
      var rest := owned.Keys;
      NoKeys(owned, keys);
      while rest != {}
        invariant seen + rest == owned.Keys && seen !! rest
        invariant n == |Registered(seen, owned, keys)|
        decreases rest
      {
        var name :| name in rest;
        OneMoreName(seen, owned, keys, name);
        if owned[name] in keys {
          n := n + 1;
        }
        rest, seen := rest - {name}, seen + {name};
      }
      assert seen == owned.Keys;
    }

    /** visibleConnectionCount: process-wide connections, then the session's registered ones. */
    method VisibleConnectionCount(sc: SessionConn) returns (n: nat)
      requires forall a, b :: a in sc.owned && b in sc.owned && sc.owned[a] == sc.owned[b] ==> a == b
      requires forall a :: a in sc.owned ==> IsSessionKey(sc.owned[a])
      ensures n == |set k | k in connections.Keys && (!IsSessionKey(k) || k in sc.owned.Values)|
    {
      hide Shared, Registered, IsSessionKey;
      var owned := sc.owned;
      var shared := CountShared(connections.Keys);
      var registered := CountRegistered(owned, connections.Keys);
      VisibleKeys(connections.Keys, owned);
      n := shared + registered;
    }

    static lemma NoKeys(owned: map<string, string>, keys: set<string>)
      ensures Shared({}) == {} && Registered({}, owned, keys) == {}
    {
    }
  }

  class SessionConn {
    const id: string
    var name: string
    var owned: map<string, string>
    var closed: bool

    ghost function State(): SessionSpec.SessionConn
      reads this
    {
      SessionSpec.SessionConn(id, name, owned, closed)
    }

    constructor (id: string)
      ensures State() == SessionSpec.SessionConn(id, "", map[], false)
    {
      this.id := id;
      name, owned, closed := "", map[], false;
    }

    method Set(key: string)
      modifies this`name
      ensures State() == old(State()).(name := key)
    {
      name := key;
    }

    method Resolve(userName: string) returns (key: string)
      ensures key == SessionSpec.Resolve(State(), userName)
    {
      key := if userName in owned then owned[userName] else userName;
    }

    /** displayName: the first owned name found for the key, else the key. */
    method DisplayName(key: string) returns (shown: string)
      ensures SessionSpec.IsDisplayName(State(), key, shown)
    {
      var names := owned.Keys;
      while names != {}
        invariant names <= owned.Keys
        invariant forall n :: n in owned && n !in names ==> owned[n] != key
        decreases names
      {
        var n :| n in names;
        if owned[n] == key {
          assert owned[n] in owned.Values;
          return n;
        }
        names := names - {n};
      }
      return key;
    }

    method ClaimName(userName: string) returns (key: string, outcome: SessionSpec.ClaimOutcome)
      modifies this`owned
      ensures (State(), outcome) == SessionSpec.Claim(old(State()), userName)
      ensures outcome.Claimed? ==> key == SessionKey(id, userName)
    {
      key := "";
      if closed {
        return key, SessionSpec.SessionEnded;
      }
      if userName in owned {
        return key, SessionSpec.NameTaken;
      }
      if |owned| >= MAX_SESSION_CONNECTIONS {
        return key, SessionSpec.TooManyForSession;
      }
      key := SessionKey(id, userName);
      owned := owned[userName := key];
      return key, SessionSpec.Claimed;
    }

    method ReleaseName(userName: string)
      modifies this`owned
      ensures State() == SessionSpec.Release(old(State()), userName)
    {
      owned := owned - {userName};
    }

    method Close() returns (keys: set<string>)
      modifies this`closed, this`owned
      ensures State() == SessionSpec.Close(old(State()))
      ensures keys == old(owned.Values)
    {
      keys := owned.Values;
      closed, owned := true, map[];
    }
  }

  class CallConn {
    var name: string

    constructor (name: string)
      ensures this.name == name
    {
      this.name := name;
    }

    method Set(key: string)
      modifies this
      ensures name == key
    {
      name := key;
    }
  }

  /** activeNameLocked: the pin, else the session's choice, else the process-wide one. */
  method ActiveNameFor(cm: Manager, sc: SessionConn?, cc: CallConn?) returns (name: string)
    ensures cc != null ==> name == cc.name
    ensures cc == null && sc != null && sc.name != "" ==> name == sc.name
    ensures cc == null && (sc == null || sc.name == "") ==> name == cm.activeConn
  {
    if cc != null {
      return cc.name;
    }
    if sc != null {
      if sc.name != "" {
        return sc.name;
      }
    }
    return cm.activeConn;
  }

  /** What SetActiveFor does when nothing interleaves with it. */
  method SetActiveFor(cm: Manager, sc: SessionConn?, cc: CallConn?, name: string) returns (ok: bool)
    modifies cm`activeConn, sc, cc
    ensures sc == null ==> (cm.State(), ok) == SetActive(old(cm.State()), name)
    ensures sc != null ==>
              var key := SessionSpec.Resolve(old(sc.State()), name);
              && cm.State() == old(cm.State())
              && (ok <==> !(IsSessionKey(name) && key == name) && key in cm.connections)
              && sc.State() == (if ok then old(sc.State()).(name := key) else old(sc.State()))
    ensures cc != null ==>
              cc.name == if !ok then old(cc.name) else if sc == null then name else SessionSpec.Resolve(old(sc.State()), name)
  {
    if sc == null {
      ok := cm.Activate(name);
      if ok && cc != null {
        cc.Set(name);
      }
      return;
    }
    var key := sc.Resolve(name);
    if (IsSessionKey(name) && key == name) || key !in cm.connections {
      return false;
    }
    sc.Set(key);
    if cc != null {
      cc.Set(key);
    }
    return true;
  }

  /** What the I/O between reservation and registration comes to. */
  datatype AddIo =
    | IoFails(heldPool: Option<Pool>, heldTunnel: Option<Resource>)
    | IoOpens(result: Opened)

  datatype AddResult =
    | Added
    | NameReserved
    | Exists
    | TooMany
    | SessionGone
    | IoFailed
    | EndedMeanwhile
    | NotActivated

  /** When, if at all, the session ends while its add is under way; its cleanup runs then. */
  datatype SessionEnd = Never | BeforeEndCheck | BeforeActivation

  ghost predicate Unchanged(was: ManagerSpec.Manager, now: ManagerSpec.Manager) {
    now == was.(closed := now.closed)
  }

  /** What the add opened and had to close again. */
  ghost function OpenedAndClosed(io: AddIo, result: AddResult): multiset<Resource> {
    match io
    case IoFails(pool, tunnel) => if result.IoFailed? then CloseHeld(EMPTY, pool, tunnel).closed else multiset{}
    case IoOpens(o) => multiset{}
  }

  lemma UnreserveUndoesReserve(m: ManagerSpec.Manager, key: string)
    requires Reserve(m, key).1.Reserved?
    ensures Reserve(m, key).0 == m.(pendingAdds := m.pendingAdds + {key}) && Unreserve(Reserve(m, key).0, key) == m
    ensures key !in m.connections && key !in m.pendingAdds
  {
    assert m.pendingAdds + {key} - {key} == m.pendingAdds;
  }

  /** Publishing and dropping the reservation commute. */
  lemma PublishKeepsPending(m: ManagerSpec.Manager, key: string, io: AddIo)
    requires Reserve(m, key).1.Reserved?
    ensures io.IoOpens? ==>
              var r := Register(Reserve(m, key).0, key, io.result, false);
              r.1 && Unreserve(r.0, key) == Publish(m, key, io.result)
    ensures io.IoFails? ==>
              var f := Unreserve(CloseHeld(Reserve(m, key).0, io.heldPool, io.heldTunnel), key);
              f == CloseHeld(m, io.heldPool, io.heldTunnel)
  {
    hide IsSessionKey, Counted;
    UnreserveUndoesReserve(m, key);
    assert m.pendingAdds + {key} - {key} == m.pendingAdds;
  }

  /** addConnectionWithPoolConfig with replace false, uninterrupted. */
  method AddIfAbsent(cm: Manager, key: string, io: AddIo) returns (result: AddResult)
    modifies cm
    ensures result.Added? || result.Exists? || result.TooMany? || result.IoFailed?
    ensures result.Added? <==> Reserve(old(cm.State()), key).1.Reserved? && io.IoOpens?
    ensures result.Added? ==> cm.State() == Publish(old(cm.State()), key, io.result)
    ensures result.Added? && Coherent(old(cm.State())) ==>
              AddsExactly(old(cm.State()), cm.State(), key, io.result) && cm.pendingAdds == old(cm.pendingAdds) && cm.closed == old(cm.closed)
    ensures !result.Added? ==>
              Unchanged(old(cm.State()), cm.State()) && cm.closed == old(cm.closed) + OpenedAndClosed(io, result)
    ensures result.Exists? <==> key in old(cm.connections) || key in old(cm.pendingAdds)
  {
    hide IsSessionKey, Counted, Register, Publish, Unreserve, Coherent, AddsExactly;
    var outcome := cm.ReserveName(key);
    match outcome
    case AlreadyExists => return Exists;
    case TooManySessionConnections => return TooMany;
    case Reserved =>
      match io {
        case IoFails(pool, tunnel) =>
          cm.CloseLocal(pool, tunnel);
          result := IoFailed;
        case IoOpens(o) =>
          var ok := cm.RegisterOpened(key, o, false);
          result := if ok then Added else Exists;
      }
      cm.UnreserveName(key);
      UnreserveUndoesReserve(old(cm.State()), key);
      PublishKeepsPending(old(cm.State()), key, io);
      if result.Added? && Coherent(old(cm.State())) {
        PublishAddsExactly(old(cm.State()), key, io.result);
      }
  }

  lemma ValuesOfUpdate<K, V>(m: map<K, V>, k: K, v: V)
    requires k !in m
    ensures m[k := v].Values == m.Values + {v}
  {
    forall x | x in m.Values + {v}
      ensures x in m[k := v].Values
    {
      if x == v {
        assert m[k := v][k] == v;
      } else {
        var y :| y in m && m[y] == x;
        assert m[k := v][y] == x;
      }
    }
  }

  lemma ReleaseUndoesClaim(owned: map<string, string>, name: string, key: string)
    requires name !in owned
    ensures owned[name := key] - {name} == owned
  {
  }

  lemma ClaimEffects(q: SessionSpec.SessionConn, name: string)
    requires SessionSpec.WellKeyed(q) && !IsSessionKey(name) && SessionSpec.Claim(q, name).1.Claimed?
    ensures var t, key := SessionSpec.Claim(q, name).0, SessionKey(q.id, name);
            && !q.closed && t == q.(owned := q.owned[name := key]) && t.owned.Values == q.owned.Values + {key}
            && SessionSpec.WellKeyed(t) && IsSessionKey(key) && SessionSpec.Release(t, name) == q
  {
    hide IsSessionKey, SessionKey;
    OwnKeyBelongs(q.id, name);
    ValuesOfUpdate(q.owned, name, SessionKey(q.id, name));
    ReleaseUndoesClaim(q.owned, name, SessionKey(q.id, name));
  }

  /** closeSessionConnections: the session ends, exactly its connections go, and their pools and
      tunnels are closed. */
  method CloseSessionConnections(cm: Manager, sc: SessionConn)
    requires Coherent(cm.State())
    requires forall k :: k in sc.owned.Values ==> IsSessionKey(k)
    modifies cm, sc
    ensures sc.State() == SessionSpec.Close(old(sc.State()))
    ensures TornDown(old(cm.State()), cm.State(), old(sc.owned.Values)) && Coherent(cm.State())
  {
    hide Coherent, TearDown, IsSessionKey, TornDown;
    var keys := sc.Close();
    ghost var done: set<string> := {};
    NoneTornDown(cm.State());
    while keys != {}
      invariant done + keys == old(sc.owned.Values) && done !! keys
      invariant sc.State() == SessionSpec.Close(old(sc.State()))
      invariant TornDown(old(cm.State()), cm.State(), done)
      decreases keys
    {
      var key :| key in keys;
      TearDownOneMore(old(cm.State()), cm.State(), done, key);
      var _ := cm.RemoveConnection(key);
      keys, done := keys - {key}, done + {key};
    }
    assert done == old(sc.owned.Values);
    TornDownCoherent(old(cm.State()), cm.State(), done);
  }

  /** The end of toolAddConnection, after its connection has been registered. */
  method FinishAdd(cm: Manager, sc: SessionConn?, cc: CallConn?, name: string, key: string, end: SessionEnd)
    returns (result: AddResult)
    requires Coherent(cm.State()) && key in cm.connections && !IsSessionKey(name)
    requires sc == null ==> key == name
    requires sc != null ==>
               SessionSpec.WellKeyed(sc.State()) && !sc.closed && name in sc.owned && sc.owned[name] == key && name !in cm.connections
    modifies cm, sc, cc
    ensures result.Added? <==> sc == null || end == Never
    ensures result.Added? || result.EndedMeanwhile? || result.NotActivated?
    ensures result.Added? ==>
              && cm.State() == (if sc == null then old(cm.State()).(activeConn := key) else old(cm.State()))
              && (sc != null ==> sc.State() == old(sc.State()).(name := key))
              && (cc != null ==> cc.name == key)
    ensures !result.Added? ==>
              && sc.State() == SessionSpec.Close(old(sc.State())) && Coherent(cm.State())
              && TornDown(old(cm.State()), cm.State(), old(sc.owned.Values))
              && (cc != null ==> cc.name == old(cc.name))
  {
    if sc != null {
      forall k | k in sc.owned.Values
        ensures IsSessionKey(k)
      {
        var n :| n in sc.owned && sc.owned[n] == k;
        OwnKeyBelongs(sc.id, n);
      }
      hide Coherent, TearDown, IsSessionKey, SessionKey;
      if end == BeforeEndCheck {
        CloseSessionConnections(cm, sc);
      }
      if sc.closed {
        RemovingNothing(cm.State(), key);
        var _ := cm.RemoveConnection(key);
        return EndedMeanwhile;
      }
      if end == BeforeActivation {
        CloseSessionConnections(cm, sc);
      }
    }
    var ok := SetActiveFor(cm, sc, cc, name);
    if !ok {
      if sc != null {
        sc.ReleaseName(name);
      }
      RemovingNothing(cm.State(), key);
      var _ := cm.RemoveConnection(key);
      return NotActivated;
    }
    return Added;
  }

  lemma RemovingNothing(m: ManagerSpec.Manager, key: string)
    requires key !in m.connections
    ensures Remove(m, key).0 == m
  {
  }

  /** toolAddConnection from its claimed name on. */
  method AddClaimed(cm: Manager, sc: SessionConn?, cc: CallConn?, name: string, key: string, io: AddIo, end: SessionEnd)
    returns (result: AddResult)
    requires Coherent(cm.State()) && !IsSessionKey(name)
    requires sc == null ==> key == name
    requires sc != null ==>
               SessionSpec.WellKeyed(sc.State()) && !sc.closed && name in sc.owned && sc.owned[name] == key &&
               IsSessionKey(key) && name !in cm.connections
    modifies cm, sc, cc
    ensures !result.NameReserved?
    ensures result.Added? ==>
              io.IoOpens? &&
              var p := Publish(old(cm.State()), key, io.result);
              && AddsExactly(old(cm.State()), p, key, io.result)
              && p.pendingAdds == old(cm.pendingAdds) && p.closed == old(cm.closed)
              && (sc != null ==> p.activeConn == old(cm.activeConn))
    ensures result.Added? ==> io.IoOpens? && (sc == null || end == Never)
    ensures result.Added? ==>
              var published := Publish(old(cm.State()), key, io.result);
              && cm.State() == (if sc == null then published.(activeConn := key) else published)
              && (sc != null ==> sc.State() == old(sc.State()).(name := key))
              && (cc != null ==> cc.name == key)
    ensures result.EndedMeanwhile? || result.NotActivated? ==>
              && sc != null && end != Never && sc.State() == SessionSpec.Close(old(sc.State()))
              && io.IoOpens? && key !in old(cm.connections) && Coherent(cm.State())
              && TornDown(Publish(old(cm.State()), key, io.result), cm.State(), old(sc.owned.Values))
    ensures !result.Added? && !result.EndedMeanwhile? && !result.NotActivated? ==>
              && Unchanged(old(cm.State()), cm.State()) && cm.closed == old(cm.closed) + OpenedAndClosed(io, result)
              && (sc != null ==> sc.State() == SessionSpec.Release(old(sc.State()), name))
    ensures !result.Added? && cc != null ==> cc.name == old(cc.name)
  {
    hide Coherent, IsSessionKey, Publish, Reserve, SessionSpec.WellKeyed, OpenedAndClosed, AddsExactly;
    result := AddIfAbsent(cm, key, io);
    if !result.Added? {
      if sc != null {
        sc.ReleaseName(name);
      }
      return;
    }
    UnreserveUndoesReserve(old(cm.State()), key);
    PublishAddsExactly(old(cm.State()), key, io.result);
    PublishCoherent(old(cm.State()), key, io.result);
    PublishedKeys(old(cm.State()), key, io.result);
    result := FinishAdd(cm, sc, cc, name, key, end);
  }

  lemma PublishedKeys(m: ManagerSpec.Manager, key: string, o: Opened)
    ensures Publish(m, key, o).connections == m.connections[key := o.pool]
    ensures Publish(m, key, o).pendingAdds == m.pendingAdds
  {
  }

  /** toolAddConnection, interrupted at most by the end of its own session. It publishes and
      activates the connection; or it leaves the manager, the session and the pin as they
      were, with everything it opened closed again; or, if the session ends, nothing of the
      session remains, the new connection included. */
  method ToolAddConnection(cm: Manager, sc: SessionConn?, cc: CallConn?, name: string, io: AddIo, end: SessionEnd)
    returns (result: AddResult)
    requires Coherent(cm.State())
    requires sc != null ==> SessionSpec.WellKeyed(sc.State())
    modifies cm, sc, cc
    ensures result.NameReserved? <==> IsSessionKey(name)
    ensures result.Added? ==>
              io.IoOpens? &&
              var key := if sc == null then name else SessionKey(sc.id, name);
              && AddsExactly(old(cm.State()), cm.State(), key, io.result)
              && cm.pendingAdds == old(cm.pendingAdds) && cm.closed == old(cm.closed)
              && cm.activeConn == if sc == null then key else old(cm.activeConn)
    ensures result.Added? ==>
              io.IoOpens? &&
              var key := if sc == null then name else SessionKey(sc.id, name);
              var published := Publish(old(cm.State()), key, io.result);
              && cm.State() == (if sc == null then published.(activeConn := key) else published)
              && (sc != null ==> sc.State() == old(sc.State()).(name := key, owned := old(sc.owned)[name := key]))
              && (cc != null ==> cc.name == key)
    ensures result.EndedMeanwhile? || result.NotActivated? ==>
              && sc != null && end != Never
              && sc.State() == SessionSpec.Close(old(sc.State()))
              && io.IoOpens? && SessionKey(sc.id, name) !in old(cm.connections) && Coherent(cm.State())
              && TornDown(Publish(old(cm.State()), SessionKey(sc.id, name), io.result), cm.State(),
                          old(sc.owned.Values) + {SessionKey(sc.id, name)})
    ensures !result.Added? && !result.EndedMeanwhile? && !result.NotActivated? ==>
              && Unchanged(old(cm.State()), cm.State()) && cm.closed == old(cm.closed) + OpenedAndClosed(io, result)
              && (sc != null ==> sc.State() == old(sc.State()))
    ensures !result.Added? && cc != null ==> cc.name == old(cc.name)
    ensures sc != null && name in old(cm.connections) && !IsSessionKey(name) ==> result.Exists?
    ensures sc != null && (old(sc.closed) || end != Never) ==> !result.Added?
  {
    if IsSessionKey(name) {
      return NameReserved;
    }
    var key := name;
    if sc != null {
      if name in cm.connections {
        return Exists;
      }
      var outcome;
      key, outcome := sc.ClaimName(name);
      match outcome
      case SessionEnded => return SessionGone;
      case NameTaken => return Exists;
      case TooManyForSession => return TooMany;
      case Claimed =>
        ClaimEffects(old(sc.State()), name);
    }
    hide Coherent, IsSessionKey, Publish, SessionKey, AddsExactly, SessionSpec.Claim, SessionSpec.Release, SessionSpec.WellKeyed;
    result := AddClaimed(cm, sc, cc, name, key, io, end);
    if result.Added? {
      ActivationKeepsEntries(old(cm.State()), Publish(old(cm.State()), key, io.result), key, io.result, key);
    }
  }

  /** The process-wide choice is no part of an entry. */
  lemma ActivationKeepsEntries(was: ManagerSpec.Manager, now: ManagerSpec.Manager, key: string, o: Opened, active: string)
    requires AddsExactly(was, now, key, o)
    ensures AddsExactly(was, now.(activeConn := active), key, o)
  {
  }
}
