/** The manager keys of connections that MCP HTTP sessions register:
    "mcp-session/<session id>/<name>". */
module SessionKeys {
  const RESERVED_PREFIX := "mcp-session/"

  // A session id is 8 random bytes in hexadecimal.
  const SESSION_ID_LENGTH := 16

  predicate IsHexDigit(c: char) {
    '0' <= c <= '9' || 'a' <= c <= 'f'
  }

  predicate ValidId(id: string) {
    |id| == SESSION_ID_LENGTH && forall i :: 0 <= i < |id| ==> IsHexDigit(id[i])
  }

  function SessionKey(id: string, name: string): string {
    RESERVED_PREFIX + id + "/" + name
  }

  predicate IsSessionKey(key: string) {
    RESERVED_PREFIX <= key
  }

  /** The text of a key, and of what is reserved. */
  lemma KeyText(id: string, name: string, key: string)
    ensures SessionKey(id, name) == "mcp-session/" + id + "/" + name
    ensures IsSessionKey(key) <==> |key| >= 12 && key[..12] == "mcp-session/"
  {
  }

  /** Everything a session could ever register starts with its own prefix. */
  predicate BelongsTo(id: string, key: string) {
    RESERVED_PREFIX + id + "/" <= key
  }

  /** A key determines both the session and the user's name, whatever characters
      (slashes included) the name contains. */
  lemma SessionKeyInjective(id1: string, name1: string, id2: string, name2: string)
    requires ValidId(id1) && ValidId(id2)
    ensures SessionKey(id1, name1) == SessionKey(id2, name2) ==> id1 == id2 && name1 == name2
  {
    var k1, k2 := SessionKey(id1, name1), SessionKey(id2, name2);
    if k1 == k2 {
      var p, q := |RESERVED_PREFIX|, |RESERVED_PREFIX| + SESSION_ID_LENGTH;
      assert k1[p..q] == id1 && k2[p..q] == id2;
      assert k1[q + 1..] == name1 && k2[q + 1..] == name2;
    }
  }

  lemma OwnKeyBelongs(id: string, name: string)
    ensures BelongsTo(id, SessionKey(id, name))
    ensures IsSessionKey(SessionKey(id, name))
  {
    assert SessionKey(id, name) == RESERVED_PREFIX + (id + "/" + name);
  }

  lemma BelongingIsSessionKey(id: string, key: string)
    requires BelongsTo(id, key)
    ensures IsSessionKey(key)
  {
    assert RESERVED_PREFIX <= RESERVED_PREFIX + id + "/";
  }

  /** No key belongs to two sessions. */
  lemma BelongsToOneSession(id1: string, id2: string, key: string)
    requires ValidId(id1) && ValidId(id2)
    requires BelongsTo(id1, key) && BelongsTo(id2, key)
    ensures id1 == id2
  {
    var p, q := |RESERVED_PREFIX|, |RESERVED_PREFIX| + SESSION_ID_LENGTH;
    assert (RESERVED_PREFIX + id1 + "/")[p..q] == id1;
    assert (RESERVED_PREFIX + id2 + "/")[p..q] == id2;
    assert key[p..q] == id1 && key[p..q] == id2;
  }

  /** A session's key belongs to that session alone. */
  lemma OwnerOfKey(id: string, name: string)
    requires ValidId(id)
    ensures BelongsTo(id, SessionKey(id, name)) && IsSessionKey(SessionKey(id, name))
    ensures forall other :: ValidId(other) && BelongsTo(other, SessionKey(id, name)) ==> other == id
  {
    OwnKeyBelongs(id, name);
    forall other | ValidId(other) && BelongsTo(other, SessionKey(id, name))
      ensures other == id
    {
      BelongsToOneSession(other, id, SessionKey(id, name));
    }
  }
}
