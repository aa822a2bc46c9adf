/** The connection manager as a value, with one function per lock-protected section of
    the source. The class in ConnectionManager.dfy is proved against these functions and
    the protocol in Protocol.dfy is built from them. */
module ManagerSpec {
  import opened Wrappers
  import opened SessionKeys

  const MAX_TOTAL_SESSION_CONNECTIONS := 20
  const MAX_SESSION_CONNECTIONS := 5
  const SESSION_CONN_MAX_OPEN := 2
  const DEFAULT_MAX_OPEN := 10

  // A pool or an SSH tunnel, by identity.
  type Resource = nat

  /** A database pool: its identity and its connection limit. */
  datatype Pool = Pool(id: Resource, maxOpen: int)

  datatype ServerType = MySQL | MariaDB | Unknown

  datatype ConnConfig = ConnConfig(name: string, description: string)

  /** What a successful open, ping and detection hands to registration. */
  datatype Opened = Opened(pool: Pool, tunnel: Option<Resource>, clientOk: bool,
                           description: string, serverType: ServerType, pack: string)

  /** The manager's fields; `closed` logs the Close calls made on pools and tunnels. */
  datatype Manager = Manager(
    connections: map<string, Pool>,
    clients: map<string, Resource>,
    configs: map<string, ConnConfig>,
    serverTypes: map<string, ServerType>,
    toolPacks: map<string, string>,
    activeConn: string,
    tunnelClosers: map<string, Resource>,
    pendingAdds: set<string>,
    closed: multiset<Resource>)

  const EMPTY := Manager(map[], map[], map[], map[], map[], "", map[], {}, multiset{})

  datatype ReserveOutcome = Reserved | AlreadyExists | TooManySessionConnections

  function SessionNames(names: set<string>): set<string> {
    set k | k in names && IsSessionKey(k)
  }

  /** The session keys that count against the process-wide cap. */
  function Counted(m: Manager): set<string> {
    SessionNames(m.connections.Keys + m.pendingAdds)
  }

  lemma CountOne(names: set<string>, key: string)
    ensures |SessionNames(names + {key})| == |SessionNames(names)| + if IsSessionKey(key) && key !in names then 1 else 0
  {
    hide IsSessionKey;
    if key in names {
      assert names + {key} == names;
    } else if IsSessionKey(key) {
      assert SessionNames(names + {key}) == SessionNames(names) + {key};
    } else {
      assert SessionNames(names + {key}) == SessionNames(names);
    }
  }

  function Reserve(m: Manager, key: string): (Manager, ReserveOutcome) {
    if key in m.connections || key in m.pendingAdds then (m, AlreadyExists)
    else if IsSessionKey(key) && |Counted(m)| >= MAX_TOTAL_SESSION_CONNECTIONS then
      (m, TooManySessionConnections)
    else (m.(pendingAdds := m.pendingAdds + {key}), Reserved)
  }

  function Unreserve(m: Manager, key: string): Manager {
    m.(pendingAdds := m.pendingAdds - {key})
  }

  function OptionSet(t: Option<Resource>): multiset<Resource> {
    match t
    case None => multiset{}
    case Some(r) => multiset{r}
  }

  /** cleanupLocal: what a failed add closes. */
  function CloseHeld(m: Manager, pool: Option<Pool>, tunnel: Option<Resource>): Manager {
    var pools := match pool case None => multiset{} case Some(p) => multiset{p.id};
    m.(closed := m.closed + pools + OptionSet(tunnel))
  }

  /** The pool and the tunnel registered under a key. */
  function HeldUnder(m: Manager, key: string): multiset<Resource>
    requires key in m.connections
  {
    multiset{m.connections[key].id} + if key in m.tunnelClosers then multiset{m.tunnelClosers[key]} else multiset{}
  }

  function TearDown(m: Manager, key: string): Manager {
    if key !in m.connections then m
    else
      Manager(
        m.connections - {key}, m.clients - {key}, m.configs - {key}, m.serverTypes - {key},
        m.toolPacks - {key}, if m.activeConn == key then "" else m.activeConn,
        m.tunnelClosers - {key}, m.pendingAdds,
        m.closed + HeldUnder(m, key))
  }

  /** Publication under a key known to be free. */
  function Publish(m: Manager, key: string, o: Opened): Manager {
    m.(connections := m.connections[key := o.pool],
       clients := if o.clientOk then m.clients[key := o.pool.id] else m.clients,
       configs := m.configs[key := ConnConfig(key, o.description)],
       serverTypes := m.serverTypes[key := o.serverType],
       toolPacks := m.toolPacks[key := o.pack],
       tunnelClosers := if o.tunnel.Some? then m.tunnelClosers[key := o.tunnel.value] else m.tunnelClosers,
       activeConn := if m.activeConn == "" && !IsSessionKey(key) then key else m.activeConn)
  }

  /** The final lock section of an add: the late duplicate check, then publication. */
  function Register(m: Manager, key: string, o: Opened, replace: bool): (Manager, bool) {
    if key in m.connections && !replace then (CloseHeld(m, Some(o.pool), o.tunnel), false)
    else (Publish(TearDown(m, key), key, o), true)
  }

  function SetActive(m: Manager, key: string): (Manager, bool) {
    if key in m.connections then (m.(activeConn := key), true) else (m, false)
  }

  function Remove(m: Manager, key: string): (Manager, bool) {
    (TearDown(m, key), key in m.connections)
  }

  /** GetActiveClient: the client to use, creating it when only the pool exists; None is the
      source's panic. */
  function ActiveClient(m: Manager, creates: bool): (Manager, Option<Resource>) {
    if m.activeConn in m.clients then (m, Some(m.clients[m.activeConn]))
    else if m.activeConn in m.connections && creates then
      var id := m.connections[m.activeConn].id;
      (m.(clients := m.clients[m.activeConn := id]), Some(id))
    else (m, None)
  }

  function DropPack(m: Manager, key: string): Manager {
    m.(toolPacks := m.toolPacks - {key})
  }

  function PackOf(m: Manager, key: string): string {
    if key in m.toolPacks then m.toolPacks[key] else ""
  }

  function PoolLimit(key: string, configured: int): int {
    var maxOpen := if configured <= 0 then DEFAULT_MAX_OPEN else configured;
    if IsSessionKey(key) && maxOpen > SESSION_CONN_MAX_OPEN then SESSION_CONN_MAX_OPEN else maxOpen
  }

  /** A handle is a pool or the failing handle for a name that is not registered. */
  datatype Handle = Live(pool: Pool) | Missing(name: string)

  function Lookup(m: Manager, key: string): Handle {
    if key in m.connections then Live(m.connections[key]) else Missing(key)
  }

  /** The side maps describe exactly the registered connections, the retry clients wrap the
      registered pools, and the process-wide choice is a registered process-wide name. */
  ghost predicate Coherent(m: Manager) {
    && m.configs.Keys == m.connections.Keys
    && (forall k :: k in m.configs ==> m.configs[k].name == k)
    && m.serverTypes.Keys == m.connections.Keys
    && m.clients.Keys <= m.connections.Keys
    && m.toolPacks.Keys <= m.connections.Keys
    && m.tunnelClosers.Keys <= m.connections.Keys
    && (forall k :: k in m.clients ==> m.clients[k] == m.connections[k].id)
    && (m.activeConn == "" || m.activeConn in m.connections) && !IsSessionKey(m.activeConn)
  }

  lemma TearDownCoherent(m: Manager, key: string)
    requires Coherent(m)
    ensures Coherent(TearDown(m, key))
  {
  }

  lemma KeysOfUpdate<K, V>(m: map<K, V>, k: K, v: V)
    ensures m[k := v].Keys == m.Keys + {k}
  {
  }

  lemma PublishCoherent(m: Manager, key: string, o: Opened)
    requires Coherent(m) && key !in m.connections
    ensures Coherent(Publish(m, key, o))
  {
    hide IsSessionKey;
    KeysOfUpdate(m.connections, key, o.pool);
    KeysOfUpdate(m.configs, key, ConnConfig(key, o.description));
    KeysOfUpdate(m.serverTypes, key, o.serverType);
  }

  lemma RegisterCoherent(m: Manager, key: string, o: Opened, replace: bool)
    requires Coherent(m)
    ensures Coherent(Register(m, key, o, replace).0)
  {
    TearDownCoherent(m, key);
    if !(key in m.connections && !replace) {
      PublishCoherent(TearDown(m, key), key, o);
    }
  }

  /** A torn-down key leaves no trace in any map. */
  lemma TearDownForgets(m: Manager, key: string)
    requires Coherent(m)
    ensures var t := TearDown(m, key);
            key !in t.connections && key !in t.clients && key !in t.configs && key !in t.serverTypes &&
            key !in t.toolPacks && key !in t.tunnelClosers && (key in m.connections ==> t.activeConn != key || key == "")
  {
  }

  // ---- What an add adds, field by field ----

  ghost predicate OthersKept<V(!new)>(m: map<string, V>, m': map<string, V>, key: string) {
    forall k :: k != key ==> (k in m <==> k in m') && (k in m ==> m'[k] == m[k])
  }

  /** Under key there is exactly what was opened, detected and given. */
  ghost predicate HasUnder(m: Manager, key: string, o: Opened) {
    && key in m.connections && m.connections[key] == o.pool
    && key in m.configs && m.configs[key].name == key && m.configs[key].description == o.description
    && key in m.serverTypes && m.serverTypes[key] == o.serverType
    && key in m.toolPacks && m.toolPacks[key] == o.pack
    && (key in m.clients <==> o.clientOk) && (o.clientOk ==> m.clients[key] == o.pool.id)
    && (key in m.tunnelClosers <==> o.tunnel.Some?) && (o.tunnel.Some? ==> m.tunnelClosers[key] == o.tunnel.value)
  }

  /** Every other key has what it had, in every map. */
  ghost predicate SameElsewhere(m: Manager, m': Manager, key: string) {
    && OthersKept(m.connections, m'.connections, key) && OthersKept(m.configs, m'.configs, key)
    && OthersKept(m.serverTypes, m'.serverTypes, key) && OthersKept(m.toolPacks, m'.toolPacks, key)
    && OthersKept(m.clients, m'.clients, key) && OthersKept(m.tunnelClosers, m'.tunnelClosers, key)
  }

  ghost predicate AddsExactly(was: Manager, now: Manager, key: string, o: Opened) {
    HasUnder(now, key, o) && SameElsewhere(was, now, key)
  }

  lemma EntryAdded<V(!new)>(m: map<string, V>, key: string, v: V)
    ensures OthersKept(m, m[key := v], key) && OthersKept(m, m, key)
  {
  }

  lemma EntryRemoved<V(!new)>(m: map<string, V>, key: string)
    ensures OthersKept(m, m - {key}, key) && OthersKept(m, m, key)
  {
  }

  lemma KeptCompose<V(!new)>(m: map<string, V>, m': map<string, V>, m'': map<string, V>, key: string)
    requires OthersKept(m, m', key) && OthersKept(m', m'', key)
    ensures OthersKept(m, m'', key)
  {
  }

  lemma PublishedUnder(m: Manager, key: string, o: Opened)
    requires key !in m.clients && key !in m.tunnelClosers
    ensures HasUnder(Publish(m, key, o), key, o)
  {
    hide IsSessionKey;
  }

  lemma PublishedElsewhere(m: Manager, key: string, o: Opened)
    ensures SameElsewhere(m, Publish(m, key, o), key)
  {
    hide IsSessionKey, OthersKept;
    EntryAdded(m.connections, key, o.pool);
    EntryAdded(m.configs, key, ConnConfig(key, o.description));
    EntryAdded(m.serverTypes, key, o.serverType);
    EntryAdded(m.toolPacks, key, o.pack);
    EntryAdded(m.clients, key, o.pool.id);
    EntryRemoved(m.tunnelClosers, key);
    if o.tunnel.Some? {
      EntryAdded(m.tunnelClosers, key, o.tunnel.value);
    }
  }

  /** Publication under a free key adds exactly the opened connection, closes nothing and
      chooses it process-wide only when nothing was chosen and it is nobody's own. */
  lemma PublishAddsExactly(m: Manager, key: string, o: Opened)
    requires Coherent(m) && key !in m.connections
    ensures var p := Publish(m, key, o);
            && AddsExactly(m, p, key, o) && p.pendingAdds == m.pendingAdds && p.closed == m.closed
            && p.activeConn == if m.activeConn == "" && !IsSessionKey(key) then key else m.activeConn
  {
    assert key !in m.clients && key !in m.tunnelClosers;
    PublishedUnder(m, key, o);
    PublishedElsewhere(m, key, o);
    hide IsSessionKey, HasUnder, SameElsewhere, Coherent;
  }

  /** What a teardown keeps and closes. */
  ghost predicate TearsDownExactly(m: Manager, t: Manager, key: string) {
    && key !in t.connections && t.pendingAdds == m.pendingAdds
    && SameElsewhere(m, t, key)
    && forall x: Resource :: t.closed[x] == m.closed[x] + ClosesOf(m, key, x)
  }

  /** How often tearing down a key closes a resource. */
  ghost function ClosesOf(m: Manager, key: string, x: Resource): nat {
    (if key in m.connections && m.connections[key].id == x then 1 else 0) +
    (if key in m.connections && key in m.tunnelClosers && m.tunnelClosers[key] == x then 1 else 0)
  }

  lemma TearDownIsExact(m: Manager, key: string)
    ensures TearsDownExactly(m, TearDown(m, key), key)
  {
    hide OthersKept;
    EntryRemoved(m.connections, key);
    EntryRemoved(m.configs, key);
    EntryRemoved(m.serverTypes, key);
    EntryRemoved(m.toolPacks, key);
    EntryRemoved(m.clients, key);
    EntryRemoved(m.tunnelClosers, key);
  }

  /** The final lock section, replacing or not: it adds exactly the opened connection and closes
      exactly what the key had. */
  lemma RegisterAddsExactly(m: Manager, key: string, o: Opened, replace: bool)
    requires Coherent(m) && (replace || key !in m.connections)
    ensures var r := Register(m, key, o, replace);
            && r.1 && AddsExactly(m, r.0, key, o) && r.0.pendingAdds == m.pendingAdds
            && forall x: Resource :: r.0.closed[x] == m.closed[x] + ClosesOf(m, key, x)
  {
    var t := TearDown(m, key);
    var p := Publish(t, key, o);
    TearDownCoherent(m, key);
    TearDownIsExact(m, key);
    PublishAddsExactly(t, key, o);
    hide TearDown, Publish, Coherent, IsSessionKey, OthersKept, ClosesOf, HasUnder;
    KeptCompose(m.connections, t.connections, p.connections, key);
    KeptCompose(m.configs, t.configs, p.configs, key);
    KeptCompose(m.serverTypes, t.serverTypes, p.serverTypes, key);
    KeptCompose(m.toolPacks, t.toolPacks, p.toolPacks, key);
    KeptCompose(m.clients, t.clients, p.clients, key);
    KeptCompose(m.tunnelClosers, t.tunnelClosers, p.tunnelClosers, key);
  }
}
