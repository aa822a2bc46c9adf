/** Tearing down a set of session connections, one after the other in any order. */
module TearDowns {
  import opened SessionKeys
  import opened ManagerSpec

  /** The manager without the entries of a set of session keys; what is closed is apart. */
  function WithoutKeys(m: Manager, keys: set<string>): Manager {
    m.(connections := m.connections - keys, clients := m.clients - keys, configs := m.configs - keys,
       serverTypes := m.serverTypes - keys, toolPacks := m.toolPacks - keys, tunnelClosers := m.tunnelClosers - keys)
  }

  ghost function PoolKeys(m: Manager, keys: set<string>, r: Resource): set<string> {
    set k | k in keys && k in m.connections && m.connections[k].id == r
  }

  ghost function TunnelKeys(m: Manager, keys: set<string>, r: Resource): set<string> {
    set k | k in keys && k in m.connections && k in m.tunnelClosers && m.tunnelClosers[k] == r
  }

  /** How often tearing down the keys closes r: once for every registration of r among them. */
  ghost function Closes(m: Manager, keys: set<string>, r: Resource): nat {
    |PoolKeys(m, keys, r)| + |TunnelKeys(m, keys, r)|
  }

  /** now is m after the teardown of exactly these keys: their entries are gone, every pool and
      tunnel registered under them has been closed, and nothing else has changed. */
  ghost predicate TornDown(m: Manager, now: Manager, keys: set<string>) {
    && now == WithoutKeys(m, keys).(closed := now.closed)
    && forall r: Resource :: now.closed[r] == m.closed[r] + Closes(m, keys, r)
  }

  lemma NoneTornDown(m: Manager)
    ensures TornDown(m, m, {})
  {
    assert WithoutKeys(m, {}) == m;
    forall r: Resource
      ensures Closes(m, {}, r) == 0
    {
      assert PoolKeys(m, {}, r) == {} && TunnelKeys(m, {}, r) == {};
    }
  }

  lemma OneMoreCloses(m: Manager, keys: set<string>, key: string, r: Resource)
    requires key !in keys
    ensures Closes(m, keys + {key}, r) == Closes(m, keys, r) + if key in m.connections then
              (if m.connections[key].id == r then 1 else 0) +
              (if key in m.tunnelClosers && m.tunnelClosers[key] == r then 1 else 0)
            else 0
  {
    OneMorePool(m, keys, key, r);
    OneMoreTunnel(m, keys, key, r);
    hide PoolKeys, TunnelKeys;
  }

  lemma OneMorePool(m: Manager, keys: set<string>, key: string, r: Resource)
    requires key !in keys
    ensures |PoolKeys(m, keys + {key}, r)| ==
            |PoolKeys(m, keys, r)| + if key in m.connections && m.connections[key].id == r then 1 else 0
  {
    var some := key in m.connections && m.connections[key].id == r;
    OneMoreElement(PoolKeys(m, keys, r), PoolKeys(m, keys + {key}, r), key, some);
  }

  lemma OneMoreTunnel(m: Manager, keys: set<string>, key: string, r: Resource)
    requires key !in keys
    ensures |TunnelKeys(m, keys + {key}, r)| ==
            |TunnelKeys(m, keys, r)| +
            if key in m.connections && key in m.tunnelClosers && m.tunnelClosers[key] == r then 1 else 0
  {
    var some := key in m.connections && key in m.tunnelClosers && m.tunnelClosers[key] == r;
    OneMoreElement(TunnelKeys(m, keys, r), TunnelKeys(m, keys + {key}, r), key, some);
  }

  lemma OneMoreElement(before: set<string>, after: set<string>, key: string, some: bool)
    requires key !in before && forall k :: k in after <==> k in before || (some && k == key)
    ensures |after| == |before| + if some then 1 else 0
  {
    if some {
      assert after == before + {key};
    } else {
      assert after == before;
    }
  }

  lemma OneMoreGone<V>(m: map<string, V>, keys: set<string>, key: string)
    ensures m - keys - {key} == m - (keys + {key})
  {
  }

  lemma OneMoreWithout(m: Manager, keys: set<string>, key: string)
    ensures WithoutKeys(m, keys + {key}) == WithoutKeys(WithoutKeys(m, keys), {key})
  {
    OneMoreGone(m.connections, keys, key);
    OneMoreGone(m.clients, keys, key);
    OneMoreGone(m.configs, keys, key);
    OneMoreGone(m.serverTypes, keys, key);
    OneMoreGone(m.toolPacks, keys, key);
    OneMoreGone(m.tunnelClosers, keys, key);
  }

  lemma NothingUnder(m: Manager, key: string)
    requires key !in m.connections && key !in m.clients && key !in m.configs && key !in m.serverTypes
    requires key !in m.toolPacks && key !in m.tunnelClosers
    ensures WithoutKeys(m, {key}) == m
  {
    NotThere(m.connections, key);
    NotThere(m.clients, key);
    NotThere(m.configs, key);
    NotThere(m.serverTypes, key);
    NotThere(m.toolPacks, key);
    NotThere(m.tunnelClosers, key);
  }

  lemma NotThere<V>(m: map<string, V>, key: string)
    requires key !in m
    ensures m - {key} == m
  {
  }

  /** One teardown leaves the other entries alone. */
  lemma TearDownEntries(now: Manager, key: string)
    requires key in now.connections ==> key != now.activeConn
    requires key !in now.connections ==> key !in now.clients && key !in now.configs && key !in now.serverTypes
    requires key !in now.connections ==> key !in now.toolPacks && key !in now.tunnelClosers
    ensures TearDown(now, key) == WithoutKeys(now, {key}).(closed := TearDown(now, key).closed)
  {
    hide HeldUnder;
    if key !in now.connections {
      NothingUnder(now, key);
      hide WithoutKeys;
    }
  }

  lemma TearDownNextEntries(m: Manager, now: Manager, keys: set<string>, key: string)
    requires Coherent(m) && IsSessionKey(key) && now == WithoutKeys(m, keys).(closed := now.closed)
    requires key !in keys
    ensures TearDown(now, key) == WithoutKeys(m, keys + {key}).(closed := TearDown(now, key).closed)
  {
    hide IsSessionKey, TearDown;
    OneMoreWithout(m, keys, key);
    assert key in now.connections <==> key in m.connections;
    TearDownEntries(now, key);
    hide Coherent;
    assert WithoutKeys(now, {key}) == WithoutKeys(WithoutKeys(m, keys), {key}).(closed := now.closed);
  }

  /** What one teardown closes. */
  lemma TearDownCloses(m: Manager, key: string, r: Resource)
    ensures TearDown(m, key).closed[r] == m.closed[r] + if key in m.connections then
              (if m.connections[key].id == r then 1 else 0) +
              (if key in m.tunnelClosers && m.tunnelClosers[key] == r then 1 else 0)
            else 0
  {
  }

  /** Tearing down one more key. */
  lemma TearDownOneMore(m: Manager, now: Manager, keys: set<string>, key: string)
    requires Coherent(m) && TornDown(m, now, keys) && key !in keys && IsSessionKey(key)
    ensures TornDown(m, TearDown(now, key), keys + {key})
  {
    var t := TearDown(now, key);
    TearDownNextEntries(m, now, keys, key);
    assert key in now.connections <==> key in m.connections;
    assert key in now.tunnelClosers <==> key in m.tunnelClosers;
    hide IsSessionKey, TearDown, WithoutKeys, Closes, Coherent;
    forall r: Resource
      ensures t.closed[r] == m.closed[r] + Closes(m, keys + {key}, r)
    {
      OneMoreCloses(m, keys, key, r);
      TearDownCloses(now, key, r);
    }
  }

  lemma TornDownCoherent(m: Manager, now: Manager, keys: set<string>)
    requires Coherent(m) && TornDown(m, now, keys) && forall k :: k in keys ==> IsSessionKey(k)
    ensures Coherent(now)
  {
    hide Closes, IsSessionKey;
  }
}
