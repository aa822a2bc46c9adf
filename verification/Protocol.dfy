/** The running server as a step system: any number of MCP sessions and tool calls
    interleave, and every lock-protected section of the source is one atomic step.
    Opening tunnels and pools, pinging and detection happen between the steps of an add,
    with any outcome. */
module Protocol {
  import opened Wrappers
  import opened SessionKeys
  import opened ManagerSpec
  import SessionSpec

  type CallId = nat

  datatype Transport = Stdio | Http

  datatype Phase = Starting | Serving(transport: Transport)

  /** `cleanup` holds the keys the end-of-session loop has still to remove. `slots` is
      history: the keys of the owned names, frozen when the session ends. */
  datatype Session = Session(conn: SessionSpec.SessionConn, cleanup: set<string>, slots: set<string>)

  /** How far SetActiveFor has come: before its first lock section, after resolve, after
      Has, and after the session (or process-wide) choice has been stored. */
  datatype Switch =
    | Begin(name: string)
    | Resolved(name: string, key: string)
    | Found(key: string)
    | Chosen(key: string)

  /** The next lock section of an add. */
  datatype AddPc =
    | Checked                 // cm.Has returned false; next: claim the name in the session
    | Claimed                 // next: reserve the key in the manager
    | Pending                 // key reserved, I/O under way; next: the final lock section
    | Unpending(ok: bool)     // next: drop the reservation
    | Releasing               // the add failed; next: release the name in the session
    | EndCheck                // registered; next: has the session ended?
    | RemovingEnded           // it has; next: remove the connection
    | Activating(sw: Switch)  // next: the next section of SetActiveFor
    | RollbackRelease         // activation failed; next: release the name
    | RollbackRemove          // next: remove the connection

  datatype Add = Add(name: string, key: string, pc: AddPc, tunnel: Option<Resource>, pool: Option<Pool>)

  datatype Job = Idle | Using(sw: Switch) | Adding(add: Add)

  /** A tool call with its pinned connection. */
  datatype Call = Call(sess: Option<string>, pin: string, job: Job)

  datatype Place = HeldBy(call: CallId) | RegisteredAt(key: string) | Released

  /** `ever` (what was registered under each key since serving began) and `place` (where
      each resource is) are history: no step's effect on the other fields reads them. */
  datatype System = System(
    phase: Phase,
    m: Manager,
    sessions: map<string, Session>,
    calls: map<CallId, Call>,
    ever: map<string, Pool>,
    next: Resource,
    place: map<Resource, Place>)

  const INITIAL := System(Starting, EMPTY, map[], map[], map[], 0, map[])

  datatype StartupIo =
    | TunnelFails
    | OpenFails(tunnel: bool)
    | PingFails(tunnel: bool)
    | Opens(tunnel: bool, configured: int, clientOk: bool, description: string, serverType: ServerType, pack: string)

  datatype Step =
    | Startup(name: string, io: StartupIo)
    | Serve(transport: Transport)
    | OpenSession(sid: string)
    | EndSession(sid: string)
    | CleanUp(sid: string, key: string)
    | BeginCall(c: CallId, sess: Option<string>)
    | EndCall(c: CallId)
    | UseConnection(c: CallId, name: string)
    | AddConnection(c: CallId, name: string)
    | Advance(c: CallId)
    | ClaimName(c: CallId)
    | ReserveKey(c: CallId)
    | OpenTunnel(c: CallId)
    | OpenPool(c: CallId, configured: int)
    | FailIo(c: CallId)
    | Finalize(c: CallId, clientOk: bool, description: string, serverType: ServerType, pack: string)
    | UnreserveKey(c: CallId)
    | ReleaseName(c: CallId)
    | CheckEnded(c: CallId)
    | RollBackName(c: CallId)
    | RemoveAdded(c: CallId)
    | LazyClient(creates: bool)
    | DropToolPack(c: CallId)

  // ---- Helpers ----

  /** The name PinFor pins: the session's choice, else the process-wide one. */
  function ActiveName(s: System, sess: Option<string>): string {
    if sess.Some? && sess.value in s.sessions && s.sessions[sess.value].conn.name != "" then
      s.sessions[sess.value].conn.name
    else s.m.activeConn
  }

  predicate AddAt(s: System, c: CallId, pc: AddPc) {
    c in s.calls && s.calls[c].job.Adding? && s.calls[c].job.add.pc == pc
  }

  function AddOf(s: System, c: CallId): Add
    requires c in s.calls && s.calls[c].job.Adding?
  {
    s.calls[c].job.add
  }

  function WithJob(s: System, c: CallId, job: Job): System
    requires c in s.calls
  {
    s.(calls := s.calls[c := s.calls[c].(job := job)])
  }

  function WithPc(s: System, c: CallId, pc: AddPc): System
    requires c in s.calls && s.calls[c].job.Adding?
  {
    WithJob(s, c, Adding(AddOf(s, c).(pc := pc)))
  }

  function WithConn(s: System, sid: string, conn: SessionSpec.SessionConn): System
    requires sid in s.sessions
  {
    s.(sessions := s.sessions[sid := s.sessions[sid].(conn := conn)])
  }

  function Settle(place: map<Resource, Place>, rs: set<Resource>, to: Place): map<Resource, Place> {
    map r | r in place :: if r in rs then to else place[r]
  }

  function HeldOf(pool: Option<Pool>, tunnel: Option<Resource>): set<Resource> {
    (if pool.Some? then {pool.value.id} else {}) + (if tunnel.Some? then {tunnel.value} else {})
  }

  /** The pool and the tunnel registered under a key. */
  function RegisteredResources(m: Manager, key: string): set<Resource> {
    (if key in m.connections then {m.connections[key].id} else {}) +
    (if key in m.tunnelClosers then {m.tunnelClosers[key]} else {})
  }

  /** RemoveConnection and the teardown of a replace. */
  function RemoveKey(s: System, key: string): System {
    s.(m := Remove(s.m, key).0, place := Settle(s.place, RegisteredResources(s.m, key), Released))
  }

  function Allocate(s: System, to: Place): System {
    s.(next := s.next + 1, place := s.place[s.next := to])
  }

  // ---- Startup: main adds the configured connections one by one, replacing ----

  predicate CanStartup(s: System, name: string) {
    s.phase == Starting && !IsSessionKey(name)
  }

  function DoStartup(s: System, name: string, io: StartupIo): System
    requires CanStartup(s, name)
  {
    var t := RemoveKey(s, name);
    match io
    case TunnelFails => t
    case OpenFails(tunnel) =>
      if !tunnel then t
      else Allocate(t, Released).(m := CloseHeld(t.m, None, Some(t.next)))
    case PingFails(tunnel) =>
      var pool := Pool(t.next, 0);
      if !tunnel then Allocate(t, Released).(m := CloseHeld(t.m, Some(pool), None))
      else Allocate(Allocate(t, Released), Released).(m := CloseHeld(t.m, Some(pool), Some(t.next + 1)))
    case Opens(tunnel, configured, clientOk, description, serverType, pack) =>
      var pool := Pool(t.next, PoolLimit(name, configured));
      var tun := if tunnel then Some(t.next + 1) else None;
      var u := Allocate(t, RegisteredAt(name));
      var v := if tunnel then Allocate(u, RegisteredAt(name)) else u;
      v.(m := Register(t.m, name, Opened(pool, tun, clientOk, description, serverType, pack), true).0)
  }

  predicate CanServe(s: System) {
    s.phase == Starting && s.m.activeConn in s.m.connections
  }

  function DoServe(s: System, transport: Transport): System
    requires CanServe(s)
  {
    s.(phase := Serving(transport), ever := s.m.connections)
  }

  // ---- Sessions begin and end ----

  predicate CanOpenSession(s: System, sid: string) {
    s.phase == Serving(Http) && ValidId(sid) && sid !in s.sessions
  }

  function DoOpenSession(s: System, sid: string): System
    requires CanOpenSession(s, sid)
  {
    s.(sessions := s.sessions[sid := Session(SessionSpec.SessionConn(sid, "", map[], false), {}, {})])
  }

  predicate CanEndSession(s: System, sid: string) {
    sid in s.sessions && !s.sessions[sid].conn.closed
  }

  /** sc.close; the loop over the returned keys follows as CleanUp steps. */
  function DoEndSession(s: System, sid: string): System
    requires CanEndSession(s, sid)
  {
    var q := s.sessions[sid];
    s.(sessions := s.sessions[sid := q.(conn := SessionSpec.Close(q.conn), cleanup := q.conn.owned.Values)])
  }

  predicate CanCleanUp(s: System, sid: string, key: string) {
    sid in s.sessions && key in s.sessions[sid].cleanup
  }

  function DoCleanUp(s: System, sid: string, key: string): System
    requires CanCleanUp(s, sid, key)
  {
    var q := s.sessions[sid];
    RemoveKey(s.(sessions := s.sessions[sid := q.(cleanup := q.cleanup - {key})]), key)
  }

  // ---- Tool calls ----

  predicate CanBeginCall(s: System, c: CallId, sess: Option<string>) {
    c !in s.calls && s.phase.Serving? &&
    (if s.phase.transport == Http then sess.Some? && sess.value in s.sessions else sess.None?)
  }

  /** PinFor: the call is pinned to the connection active for it right now. */
  function DoBeginCall(s: System, c: CallId, sess: Option<string>): System {
    s.(calls := s.calls[c := Call(sess, ActiveName(s, sess), Idle)])
  }

  predicate CanEndCall(s: System, c: CallId) {
    c in s.calls && s.calls[c].job.Idle?
  }

  function DoEndCall(s: System, c: CallId): System {
    s.(calls := s.calls - {c})
  }

  predicate CanUseConnection(s: System, c: CallId, name: string) {
    c in s.calls && s.calls[c].job.Idle? && name != ""
  }

  /** An add gets past its input checks and, over HTTP, past cm.Has. */
  predicate CanAddConnection(s: System, c: CallId, name: string) {
    c in s.calls && s.calls[c].job.Idle? && name != "" && !IsSessionKey(name) &&
    (s.calls[c].sess.Some? ==> name !in s.m.connections)
  }

  function DoAddConnection(s: System, c: CallId, name: string): System
    requires CanAddConnection(s, c, name)
  {
    var sess := s.calls[c].sess;
    WithJob(s, c, Adding(if sess.Some? then Add(name, SessionKey(sess.value, name), Checked, None, None)
                         else Add(name, name, Claimed, None, None)))
  }

  // ---- Switching ----

  datatype SwitchResult = Go(sw: Switch) | Done | Refused

  /** One lock section of SetActiveFor: the new manager, session and pin state, and where
      the switch stands afterwards. */
  function SwitchSection(s: System, c: CallId, sw: Switch): (System, SwitchResult)
    requires c in s.calls
  {
    var call := s.calls[c];
    match sw
    case Begin(name) =>
      if call.sess.None? then
        var (m, ok) := SetActive(s.m, name);
        (s.(m := m), if ok then Go(Chosen(name)) else Refused)
      else if call.sess.value in s.sessions then
        (s, Go(Resolved(name, SessionSpec.Resolve(s.sessions[call.sess.value].conn, name))))
      else (s, Refused)
    case Resolved(name, key) =>
      if (IsSessionKey(name) && key == name) || key !in s.m.connections then (s, Refused)
      else (s, Go(Found(key)))
    case Found(key) =>
      if call.sess.Some? && call.sess.value in s.sessions then
        (WithConn(s, call.sess.value, s.sessions[call.sess.value].conn.(name := key)), Go(Chosen(key)))
      else (s, Refused)
    case Chosen(key) =>
      (s.(calls := s.calls[c := call.(pin := key)]), Done)
  }

  predicate CanAdvance(s: System, c: CallId) {
    c in s.calls && (s.calls[c].job.Using? || (s.calls[c].job.Adding? && AddOf(s, c).pc.Activating?))
  }

  /** use_connection gives up on a refusal; an add rolls back. */
  function AfterSection(call: Call, r: SwitchResult): Job
    requires call.job.Using? || (call.job.Adding? && call.job.add.pc.Activating?)
  {
    match r
    case Done => Idle
    case Go(sw) => if call.job.Using? then Using(sw) else Adding(call.job.add.(pc := Activating(sw)))
    case Refused =>
      if call.job.Using? then Idle
      else Adding(call.job.add.(pc := if call.sess.Some? then RollbackRelease else RollbackRemove))
  }

  function SwitchOf(call: Call): Switch
    requires call.job.Using? || (call.job.Adding? && call.job.add.pc.Activating?)
  {
    if call.job.Using? then call.job.sw else call.job.add.pc.sw
  }

  function DoAdvance(s: System, c: CallId): System
    requires CanAdvance(s, c)
  {
    var (t, r) := SwitchSection(s, c, SwitchOf(s.calls[c]));
    WithJob(t, c, AfterSection(s.calls[c], r))
  }

  // ---- The lock sections of an add ----

  function DoClaimName(s: System, c: CallId): System
    requires AddAt(s, c, Checked)
  {
    var a := AddOf(s, c);
    if s.calls[c].sess.None? || s.calls[c].sess.value !in s.sessions then WithJob(s, c, Idle)
    else
      var sid := s.calls[c].sess.value;
      var (conn, outcome) := SessionSpec.Claim(s.sessions[sid].conn, a.name);
      if outcome.Claimed? then
        var q := s.sessions[sid].(conn := conn, slots := s.sessions[sid].slots + {a.key});
        WithPc(s.(sessions := s.sessions[sid := q]), c, Claimed)
      else WithJob(s, c, Idle)
  }

  function DoReserveKey(s: System, c: CallId): System
    requires AddAt(s, c, Claimed)
  {
    var (m, outcome) := Reserve(s.m, AddOf(s, c).key);
    var t := s.(m := m);
    if outcome.Reserved? then WithPc(t, c, Pending)
    else if s.calls[c].sess.Some? then WithPc(t, c, Releasing)
    else WithJob(t, c, Idle)
  }

  predicate CanOpenTunnel(s: System, c: CallId) {
    AddAt(s, c, Pending) && AddOf(s, c).tunnel.None? && AddOf(s, c).pool.None?
  }

  function DoOpenTunnel(s: System, c: CallId): System
    requires CanOpenTunnel(s, c)
  {
    WithJob(Allocate(s, HeldBy(c)), c, Adding(AddOf(s, c).(tunnel := Some(s.next))))
  }

  predicate CanOpenPool(s: System, c: CallId) {
    AddAt(s, c, Pending) && AddOf(s, c).pool.None?
  }

  function DoOpenPool(s: System, c: CallId, configured: int): System
    requires CanOpenPool(s, c)
  {
    var a := AddOf(s, c);
    WithJob(Allocate(s, HeldBy(c)), c, Adding(a.(pool := Some(Pool(s.next, PoolLimit(a.key, configured))))))
  }

  /** Any failure between reservation and registration: close what was opened. */
  function DoFailIo(s: System, c: CallId): System
    requires AddAt(s, c, Pending)
  {
    var a := AddOf(s, c);
    var t := s.(m := CloseHeld(s.m, a.pool, a.tunnel), place := Settle(s.place, HeldOf(a.pool, a.tunnel), Released));
    WithJob(t, c, Adding(a.(pc := Unpending(false), tunnel := None, pool := None)))
  }

  predicate CanFinalize(s: System, c: CallId) {
    AddAt(s, c, Pending) && AddOf(s, c).pool.Some?
  }

  function DoFinalize(s: System, c: CallId, clientOk: bool, description: string, serverType: ServerType, pack: string): System
    requires CanFinalize(s, c)
  {
    var a := AddOf(s, c);
    var o := Opened(a.pool.value, a.tunnel, clientOk, description, serverType, pack);
    var (m, ok) := Register(s.m, a.key, o, false);
    var t := s.(m := m,
                ever := if ok then s.ever[a.key := o.pool] else s.ever,
                place := Settle(s.place, HeldOf(a.pool, a.tunnel), if ok then RegisteredAt(a.key) else Released));
    WithJob(t, c, Adding(a.(pc := Unpending(ok), tunnel := None, pool := None)))
  }

  predicate CanUnreserveKey(s: System, c: CallId) {
    c in s.calls && s.calls[c].job.Adding? && AddOf(s, c).pc.Unpending?
  }

  function DoUnreserveKey(s: System, c: CallId): System
    requires CanUnreserveKey(s, c)
  {
    var a := AddOf(s, c);
    var t := s.(m := Unreserve(s.m, a.key));
    if s.calls[c].sess.Some? then WithPc(t, c, if a.pc.ok then EndCheck else Releasing)
    else if a.pc.ok then WithPc(t, c, Activating(Begin(a.name)))
    else WithJob(t, c, Idle)
  }

  /** sc.release; the name's slot is freed unless the session has ended. */
  function FreeName(s: System, c: CallId): System
    requires c in s.calls && s.calls[c].job.Adding?
  {
    var a := AddOf(s, c);
    if s.calls[c].sess.None? || s.calls[c].sess.value !in s.sessions then s
    else
      var sid := s.calls[c].sess.value;
      var q := s.sessions[sid];
      var slots := if q.conn.closed then q.slots else q.slots - {a.key};
      s.(sessions := s.sessions[sid := q.(conn := SessionSpec.Release(q.conn, a.name), slots := slots)])
  }

  function DoReleaseName(s: System, c: CallId): System
    requires AddAt(s, c, Releasing)
  {
    WithJob(FreeName(s, c), c, Idle)
  }

  function DoCheckEnded(s: System, c: CallId): System
    requires AddAt(s, c, EndCheck)
  {
    var sess := s.calls[c].sess;
    if sess.Some? && sess.value in s.sessions && s.sessions[sess.value].conn.closed then WithPc(s, c, RemovingEnded)
    else WithPc(s, c, Activating(Begin(AddOf(s, c).name)))
  }

  function DoRollBackName(s: System, c: CallId): System
    requires AddAt(s, c, RollbackRelease)
  {
    WithPc(FreeName(s, c), c, RollbackRemove)
  }

  predicate CanRemoveAdded(s: System, c: CallId) {
    AddAt(s, c, RemovingEnded) || AddAt(s, c, RollbackRemove)
  }

  /** RemoveConnection at the end of an add that found its session ended or rolled back. */
  function DoRemoveAdded(s: System, c: CallId): System
    requires CanRemoveAdded(s, c)
  {
    WithJob(RemoveKey(s, AddOf(s, c).key), c, Idle)
  }

  // ---- Any step ----

  predicate Enabled(s: System, step: Step) {
    match step
    case Startup(name, _) => CanStartup(s, name)
    case Serve(_) => CanServe(s)
    case OpenSession(sid) => CanOpenSession(s, sid)
    case EndSession(sid) => CanEndSession(s, sid)
    case CleanUp(sid, key) => CanCleanUp(s, sid, key)
    case BeginCall(c, sess) => CanBeginCall(s, c, sess)
    case EndCall(c) => CanEndCall(s, c)
    case UseConnection(c, name) => CanUseConnection(s, c, name)
    case AddConnection(c, name) => CanAddConnection(s, c, name)
    case Advance(c) => CanAdvance(s, c)
    case ClaimName(c) => AddAt(s, c, Checked)
    case ReserveKey(c) => AddAt(s, c, Claimed)
    case OpenTunnel(c) => CanOpenTunnel(s, c)
    case OpenPool(c, _) => CanOpenPool(s, c)
    case FailIo(c) => AddAt(s, c, Pending)
    case Finalize(c, _, _, _, _) => CanFinalize(s, c)
    case UnreserveKey(c) => CanUnreserveKey(s, c)
    case ReleaseName(c) => AddAt(s, c, Releasing)
    case CheckEnded(c) => AddAt(s, c, EndCheck)
    case RollBackName(c) => AddAt(s, c, RollbackRelease)
    case RemoveAdded(c) => CanRemoveAdded(s, c)
    case LazyClient(_) => s.phase.Serving?
    case DropToolPack(c) => c in s.calls
  }

  function Apply(s: System, step: Step): System
    requires Enabled(s, step)
  {
    match step
    case Startup(name, io) => DoStartup(s, name, io)
    case Serve(transport) => DoServe(s, transport)
    case OpenSession(sid) => DoOpenSession(s, sid)
    case EndSession(sid) => DoEndSession(s, sid)
    case CleanUp(sid, key) => DoCleanUp(s, sid, key)
    case BeginCall(c, sess) => DoBeginCall(s, c, sess)
    case EndCall(c) => DoEndCall(s, c)
    case UseConnection(c, name) => WithJob(s, c, Using(Begin(name)))
    case AddConnection(c, name) => DoAddConnection(s, c, name)
    case Advance(c) => DoAdvance(s, c)
    case ClaimName(c) => DoClaimName(s, c)
    case ReserveKey(c) => DoReserveKey(s, c)
    case OpenTunnel(c) => DoOpenTunnel(s, c)
    case OpenPool(c, configured) => DoOpenPool(s, c, configured)
    case FailIo(c) => DoFailIo(s, c)
    case Finalize(c, clientOk, description, serverType, pack) =>
      DoFinalize(s, c, clientOk, description, serverType, pack)
    case UnreserveKey(c) => DoUnreserveKey(s, c)
    case ReleaseName(c) => DoReleaseName(s, c)
    case CheckEnded(c) => DoCheckEnded(s, c)
    case RollBackName(c) => DoRollBackName(s, c)
    case RemoveAdded(c) => DoRemoveAdded(s, c)
    case LazyClient(creates) => s.(m := ActiveClient(s.m, creates).0)
    case DropToolPack(c) => s.(m := DropPack(s.m, s.calls[c].pin))
  }

  // ---- Runs ----

  predicate Legal(s: System, steps: seq<Step>)
    decreases |steps|
  {
    steps == [] || (Enabled(s, steps[0]) && Legal(Apply(s, steps[0]), steps[1..]))
  }

  function Run(s: System, steps: seq<Step>): System
    requires Legal(s, steps)
    decreases |steps|
  {
    if steps == [] then s else Run(Apply(s, steps[0]), steps[1..])
  }

  /** A state some run from an empty manager reaches. */
  ghost predicate Reachable(s: System) {
    exists steps :: Legal(INITIAL, steps) && s == Run(INITIAL, steps)
  }
}
