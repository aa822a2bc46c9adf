/** The SQL tool pack: a catalog query runs as a stored procedure where the connection has
    the tool pack and as embedded SQL elsewhere, and a pack that has gone away falls back. */
module ToolPack {
  import opened ManagerSpec
  import opened ConnectionManager
  import opened Protocol
  import opened ProtocolInvariant
  import CallSteps
  import PinTheorems
  import ProtocolTheorems

  const ER_SP_DOES_NOT_EXIST: nat := 1305
  const ER_PROCACCESS_DENIED: nat := 1370

  datatype Reply =
    | Rows(rows: seq<seq<string>>)
    | Failed(code: nat)

  predicate PackUnavailable(r: Reply) {
    r.Failed? && (r.code == ER_SP_DOES_NOT_EXIST || r.code == ER_PROCACCESS_DENIED)
  }

  /** What one catalog query gets from a handle: from its embedded text, and from the tool pack's
      procedure. */
  datatype Database = Database(embedded: Reply, procedure: Reply)

  /** The procedure gives what the embedded query gives, unless it cannot be called. */
  predicate Faithful(d: Database) {
    d.procedure == Failed(1305) || d.procedure == Failed(1370) || d.procedure == d.embedded
  }

  /** catalogRows, run without interference. */
  method CatalogRows(cm: ConnectionManager.Manager, sc: ConnectionManager.SessionConn?, cc: CallConn?,
                     serve: Handle -> Database)
    returns (reply: Reply, ghost name: string)
    requires forall h: Handle :: Faithful(serve(h))
    modifies cm`toolPacks
    ensures name == (if cc != null then cc.name else if sc != null && sc.name != "" then sc.name else cm.activeConn)
    ensures reply == serve(Lookup(old(cm.State()), name)).embedded
    ensures var was := old(cm.State());
            cm.State() ==
            if name in was.toolPacks && was.toolPacks[name] != "" &&
               (serve(Lookup(was, name)).procedure == Failed(1305) || serve(Lookup(was, name)).procedure == Failed(1370))
            then was.(toolPacks := was.toolPacks - {name})
            else was
  {
    var active := ActiveNameFor(cm, sc, cc);
    name := active;
    var db := serve(if active in cm.connections then Live(cm.connections[active]) else Missing(active));
    if active in cm.toolPacks && cm.toolPacks[active] != "" {
      if !PackUnavailable(db.procedure) {
        return db.procedure, name;
      }
      cm.DropToolPack(active);
    }
    return db.embedded, name;
  }

  // ---- The same, with the rest of the server at work ----

  /** The lock sections of catalogRows in one call: the marker is read in s; then come other
      steps before the first getDB, and others, the drop of the marker among them, before the
      second. */
  function Interleaved(s: System, before: seq<Step>, between: seq<Step>, c: CallId, serve: Handle -> Database): Reply
    requires c in s.calls && Legal(s, before) && Legal(Run(s, before), between)
  {
    var pin := s.calls[c].pin;
    var u := Run(s, before);
    var v := Run(u, between);
    if PackOf(s.m, pin) == "" then serve(Lookup(u.m, pin)).embedded
    else
      var reply := serve(Lookup(u.m, pin)).procedure;
      if PackUnavailable(reply) then serve(Lookup(v.m, pin)).embedded else reply
  }

  /** Whatever interleaves, a pinned catalog query gives the embedded query's answer on the
      connection the call is pinned to, or that of the failing handle for its name: tool pack or
      not, and if the tool pack goes away during the call. */
  lemma PackIsTransparent(s: System, before: seq<Step>, between: seq<Step>, c: CallId, serve: Handle -> Database)
    requires Reachable(s) && c in s.calls
    requires Legal(s, before) && PinTheorems.NeverMoves(s, before, c)
    requires Legal(Run(s, before), between) && PinTheorems.NeverMoves(Run(s, before), between, c)
    requires forall h: Handle :: Faithful(serve(h))
    ensures var pin := s.calls[c].pin;
            var reply := Interleaved(s, before, between, c, serve);
            reply == serve(Lookup(s.m, pin)).embedded || reply == serve(Missing(pin)).embedded
  {
    hide Inv, Legal, Run, PinTheorems.NeverMoves;
    var pin := s.calls[c].pin;
    var u := Run(s, before);
    PinTheorems.PinnedCallStaysOnOneServer(s, before, c);
    ProtocolTheorems.ReachableInv(s);
    ProtocolTheorems.RunKeeps(s, before);
    PinTheorems.PinStability(u, between, c);
    assert Faithful(serve(Lookup(u.m, pin)));
  }

  /** Dropping a marker clears that of the pinned connection and no other, and it stays
      cleared whatever the server does from then on. */
  lemma DropClearsOneMarker(s: System, c: CallId, steps: seq<Step>, other: string)
    requires Reachable(s) && c in s.calls && PackOf(s.m, s.calls[c].pin) != ""
    requires Legal(Apply(s, DropToolPack(c)), steps)
    ensures var t := Apply(s, DropToolPack(c));
            && (other != s.calls[c].pin ==> PackOf(t.m, other) == PackOf(s.m, other))
            && PackOf(Run(t, steps).m, s.calls[c].pin) == ""
  {
    hide Inv, Legal, Run;
    var pin := s.calls[c].pin;
    var t := Apply(s, DropToolPack(c));
    ProtocolTheorems.ReachableInv(s);
    CallSteps.CallAndSession(s, c);
    assert pin in s.m.connections by { MarkerIsRegistered(s, pin); }
    PinTheorems.RegisteredIsEver(s, pin);
    ProtocolTheorems.StepKeeps(s, DropToolPack(c));
    PinTheorems.ClearedPackStaysCleared(t, steps, pin);
  }

  lemma MarkerIsRegistered(s: System, key: string)
    requires Inv(s) && key in s.m.toolPacks
    ensures key in s.m.connections
  {
    hide CapOk, PlacesOk, CallsOk, SessionsOk, Exclusive, PendingOk, NoLeak;
  }
}
