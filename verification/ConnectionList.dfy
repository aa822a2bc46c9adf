/** list_connections: what a caller is shown, under which names. */
module ConnectionList {
  import opened Wrappers
  import opened SessionKeys
  import opened ManagerSpec
  import opened ConnectionManager
  import SessionSpec

  /** The keys list_connections shows to a session. */
  ghost function VisibleKeys(m: ManagerSpec.Manager, sc: SessionSpec.SessionConn): set<string> {
    set k | k in m.configs && (!IsSessionKey(k) || k in sc.owned.Values)
  }

  datatype Entry = Entry(name: string, description: string, active: bool)

  /** An entry shows a key: under the session's name for it, and marked when it is the
      caller's active connection. */
  ghost predicate Shows(e: Entry, m: ManagerSpec.Manager, sc: SessionSpec.SessionConn, active: string, key: string) {
    && key in m.configs
    && SessionSpec.IsDisplayName(sc, key, e.name)
    && e.description == m.configs[key].description
    && (e.active <==> key == active)
  }

  /** Without a session nothing is owned. */
  ghost function StateOf(sc: ConnectionManager.SessionConn?): SessionSpec.SessionConn
    reads sc
  {
    if sc == null then SessionSpec.SessionConn("", "", map[], false) else sc.State()
  }

  /** The names a session registered, by manager key. */
  method OwnedByKey(names: map<string, string>) returns (owned: map<string, string>)
    ensures owned.Keys == names.Values
    ensures forall key :: key in owned ==> owned[key] in names && names[owned[key]] == key
  {
    owned := map[];
    var rest := names.Keys;
    while rest != {}
      invariant rest <= names.Keys
      invariant forall n :: n in names && n !in rest ==> names[n] in owned
      invariant forall key :: key in owned ==> owned[key] in names && names[owned[key]] == key
      decreases rest
    {
      var n :| n in rest;
      owned := owned[names[n] := n];
      rest := rest - {n};
    }
  }

  /** The entries show exactly the visible keys, each once. */
  ghost predicate Listing(entries: seq<Entry>, keys: seq<string>, m: ManagerSpec.Manager,
                          sc: SessionSpec.SessionConn, active: string) {
    && |keys| == |entries|
    && (forall i, j :: 0 <= i < j < |keys| ==> keys[i] != keys[j])
    && (forall k :: k in keys <==> k in VisibleKeys(m, sc))
    && (forall i :: 0 <= i < |keys| ==> Shows(entries[i], m, sc, active, keys[i]))
  }

  /** How the loop shows a key. */
  function Shown(m: map<string, ConnConfig>, owned: map<string, string>, active: string, key: string): Entry
    requires key in m
  {
    Entry(if IsSessionKey(key) && key in owned then owned[key] else key, m[key].description, key == active)
  }

  ghost predicate Loop(entries: seq<Entry>, keys: seq<string>, m: map<string, ConnConfig>, owned: map<string, string>,
                       active: string, done: set<string>) {
    && |keys| == |entries|
    && (forall i, j :: 0 <= i < j < |keys| ==> keys[i] != keys[j])
    && (forall k :: k in keys <==> k in m && k in done && (IsSessionKey(k) ==> k in owned))
    && (forall i :: 0 <= i < |keys| ==> keys[i] in m && entries[i] == Shown(m, owned, active, keys[i]))
  }

  /** The connection named at the end of a tool call: the pin's name, when the session can see
      more than one connection and there is a name. */
  method ReportedConnection(cm: ConnectionManager.Manager, sc: ConnectionManager.SessionConn?, cc: CallConn)
    returns (reported: Option<string>)
    requires sc != null ==> SessionSpec.WellKeyed(sc.State()) && ValidId(sc.id)
    requires Coherent(cm.State())
    ensures reported.Some? ==> sc != null && SessionSpec.IsDisplayName(sc.State(), cc.name, reported.value)
    ensures reported.Some? ==> |VisibleKeys(cm.State(), sc.State())| > 1 && reported.value != ""
    ensures sc != null && |VisibleKeys(cm.State(), sc.State())| > 1 && reported.None? ==>
              SessionSpec.IsDisplayName(sc.State(), cc.name, "")
    ensures sc == null ==> reported.None?
  {
    if sc == null {
      return None;
    }
    OwnedApart(sc.State());
    SeenAreRegistered(cm.State(), sc.State());
    hide IsSessionKey, SessionKey, VisibleKeys, ValidId, Coherent;
    var count := cm.VisibleConnectionCount(sc);
    var shown := sc.DisplayName(cc.name);
    return if count > 1 && shown != "" then Some(shown) else None;
  }

  lemma OwnedApart(sc: SessionSpec.SessionConn)
    requires SessionSpec.WellKeyed(sc) && ValidId(sc.id)
    ensures forall a, b :: a in sc.owned && b in sc.owned && sc.owned[a] == sc.owned[b] ==> a == b
    ensures forall a :: a in sc.owned ==> IsSessionKey(sc.owned[a])
  {
    hide IsSessionKey, SessionKey, ValidId;
    forall a | a in sc.owned
      ensures IsSessionKey(sc.owned[a])
    {
      OwnKeyBelongs(sc.id, a);
    }
    forall a, b | a in sc.owned && b in sc.owned && sc.owned[a] == sc.owned[b]
      ensures a == b
    {
      SessionKeyInjective(sc.id, a, sc.id, b);
    }
  }

  lemma SeenAreRegistered(m: ManagerSpec.Manager, sc: SessionSpec.SessionConn)
    requires Coherent(m)
    ensures VisibleKeys(m, sc) == set k | k in m.connections.Keys && (!IsSessionKey(k) || k in sc.owned.Values)
  {
    hide IsSessionKey;
  }

  /** The loop over the configurations, in any order. */
  method ListEntries(m: map<string, ConnConfig>, owned: map<string, string>, active: string) returns (entries: seq<Entry>)
    ensures exists keys: seq<string> :: Loop(entries, keys, m, owned, active, m.Keys)
  {
    hide IsSessionKey;
    entries := [];
    ghost var keys: seq<string>, done: set<string> := [], {};
    var rest := m.Keys;
    while rest != {}
      invariant done + rest == m.Keys && done !! rest
      invariant Loop(entries, keys, m, owned, active, done)
      decreases rest
    {
      var key :| key in rest;
      rest, done := rest - {key}, done + {key};
      if IsSessionKey(key) && key !in owned {
        continue;
      }
      var name := key;
      if IsSessionKey(key) {
        name := owned[key];
      }
      entries, keys := entries + [Entry(name, m[key].description, key == active)], keys + [key];
    }
    assert done == m.Keys;
  }

  lemma ShownShows(m: ManagerSpec.Manager, sc: SessionSpec.SessionConn, owned: map<string, string>, active: string, key: string)
    requires owned.Keys == sc.owned.Values && key in m.configs && (IsSessionKey(key) ==> key in owned)
    requires forall k :: k in owned ==> IsSessionKey(k) && owned[k] in sc.owned && sc.owned[owned[k]] == k
    ensures Shows(Shown(m.configs, owned, active, key), m, sc, active, key)
  {
    hide IsSessionKey;
  }

  /** What the loop shows under the session's names is what the session sees. */
  lemma LoopLists(entries: seq<Entry>, m: ManagerSpec.Manager, sc: SessionSpec.SessionConn, owned: map<string, string>, active: string)
    requires owned.Keys == sc.owned.Values
    requires forall key :: key in owned ==> IsSessionKey(key) && owned[key] in sc.owned && sc.owned[owned[key]] == key
    requires exists keys: seq<string> :: Loop(entries, keys, m.configs, owned, active, m.configs.Keys)
    ensures exists keys: seq<string> :: Listing(entries, keys, m, sc, active)
  {
    hide IsSessionKey, Shows, Shown;
    var keys: seq<string> :| Loop(entries, keys, m.configs, owned, active, m.configs.Keys);
    forall i | 0 <= i < |keys|
      ensures Shows(entries[i], m, sc, active, keys[i])
    {
      assert keys[i] in keys;
      ShownShows(m, sc, owned, active, keys[i]);
    }
    assert forall k :: k in keys <==> k in VisibleKeys(m, sc);
    hide VisibleKeys, Loop;
    assert Listing(entries, keys, m, sc, active);
  }

  ghost function ActiveNameOf(cm: ConnectionManager.Manager, sc: ConnectionManager.SessionConn?, cc: CallConn?): string
    reads cm, sc, cc
  {
    if cc != null then cc.name else if sc != null && sc.name != "" then sc.name else cm.activeConn
  }

  /** toolListConnections: every visible connection exactly once and no other, each under the
      session's own name for it. */
  method ListConnections(cm: ConnectionManager.Manager, sc: ConnectionManager.SessionConn?, cc: CallConn?)
    returns (entries: seq<Entry>, shownActive: string)
    requires sc != null ==> SessionSpec.WellKeyed(sc.State())
    ensures SessionSpec.IsDisplayName(StateOf(sc), ActiveNameOf(cm, sc, cc), shownActive)
    ensures exists keys: seq<string> :: Listing(entries, keys, cm.State(), StateOf(sc), ActiveNameOf(cm, sc, cc))
  {
    var activeKey := ActiveNameFor(cm, sc, cc);
    var owned: map<string, string> := map[];
    shownActive := activeKey;
    if sc != null {
      owned := OwnedByKey(sc.owned);
      shownActive := sc.DisplayName(activeKey);
      forall key | key in owned
        ensures IsSessionKey(key)
      {
        OwnKeyBelongs(sc.id, owned[key]);
      }
    }
    hide IsSessionKey, SessionKey, Loop, Listing, SessionSpec.WellKeyed;
    entries := ListEntries(cm.configs, owned, activeKey);
    LoopLists(entries, cm.State(), StateOf(sc), owned, activeKey);
  }
}
