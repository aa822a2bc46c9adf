/** One MCP session's connection state as a value, with one function per lock section of
    the source's sessionConn. */
module SessionSpec {
  import opened SessionKeys
  import opened ManagerSpec

  /** `name` is the manager key of the session's choice ("" for none); `owned` maps the
      names the session registered, or is registering, to their manager keys. */
  datatype SessionConn = SessionConn(id: string, name: string, owned: map<string, string>, closed: bool)

  datatype ClaimOutcome = Claimed | SessionEnded | NameTaken | TooManyForSession

  function Claim(sc: SessionConn, name: string): (SessionConn, ClaimOutcome) {
    if sc.closed then (sc, SessionEnded)
    else if name in sc.owned then (sc, NameTaken)
    else if |sc.owned| >= MAX_SESSION_CONNECTIONS then (sc, TooManyForSession)
    else (sc.(owned := sc.owned[name := SessionKey(sc.id, name)]), Claimed)
  }

  function Release(sc: SessionConn, name: string): SessionConn {
    sc.(owned := sc.owned - {name})
  }

  function Close(sc: SessionConn): SessionConn {
    sc.(closed := true, owned := map[])
  }

  function Resolve(sc: SessionConn, name: string): string {
    if name in sc.owned then sc.owned[name] else name
  }

  /** displayName may return any owned name with that key, or the key when there is none. */
  ghost predicate IsDisplayName(sc: SessionConn, key: string, shown: string) {
    if key in sc.owned.Values then shown in sc.owned && sc.owned[shown] == key else shown == key
  }

  /** Owned names are not internal keys and map to this session's own keys. */
  ghost predicate WellKeyed(sc: SessionConn) {
    forall n :: n in sc.owned ==> sc.owned[n] == SessionKey(sc.id, n) && !IsSessionKey(n)
  }
}
