/** `SessionAuth`: sessions kept in memory as a dict from session id to user
    id (Session_authentication/api/v1/auth/session_auth.py). The dict is a
    class attribute, so every instance reads and writes the same one; the
    model makes it a store object that instances share by reference. The id
    `uuid.uuid4()` would produce is passed in, and a request is reduced to
    the value of its session cookie. */
module Sessions {
  import opened Wrappers

  /** A request as `destroy_session` sees it: its session cookie, if any. */
  datatype Request = Request(sessionCookie: Option<string>)

  /** `user_id_for_session_id`: None for a missing or non-string id and for
      an unknown id, the stored user id otherwise. */
  function UserIdFor(store: map<string, string>, sessionId: Dynamic): (r: Option<string>)
    ensures r.Some? <==> sessionId.Text? && sessionId.s in store
    ensures r.Some? ==> r.value == store[sessionId.s]
  {
    if sessionId.Text? && sessionId.s in store then Some(store[sessionId.s]) else None
  }

  /** `create_session(user_id)`: the new dict and the returned id. */
  function CreateStep(store: map<string, string>, userId: Dynamic, freshId: string)
    : (r: (map<string, string>, Option<string>))
    ensures !userId.Text? ==> r == (store, None)
  {
    if userId.Text? then (store[freshId := userId.s], Some(freshId)) else (store, None)
  }

  /** `destroy_session(request)`: the new dict and the returned flag. */
  function DestroyStep(store: map<string, string>, request: Option<Request>)
    : (r: (map<string, string>, bool))
    ensures !r.1 ==> r.0 == store
  {
    if request.None? || request.value.sessionCookie.None? then (store, false)
    else
      var id := request.value.sessionCookie.value;
      if id !in store then (store, false) else (store - {id}, true)
  }

  /** A created session maps its id to the user and leaves every other
      entry as it was; the id then looks up that user. */
  lemma CreateThenLookup(store: map<string, string>, u: string, freshId: string, other: string)
    requires other != freshId
    ensures var (s1, id) := CreateStep(store, Text(u), freshId);
      id == Some(freshId) && UserIdFor(s1, Text(freshId)) == Some(u)
      && UserIdFor(s1, Text(other)) == UserIdFor(store, Text(other))
  {
  }

  /** Destroying succeeds exactly for a request whose cookie names a known
      session; it deletes that entry only, and a later lookup of it gives None. */
  lemma DestroyThenLookup(store: map<string, string>, request: Option<Request>, other: string)
    ensures var (s1, ok) := DestroyStep(store, request);
      && (ok <==> request.Some? && request.value.sessionCookie.Some? && request.value.sessionCookie.value in store)
      && (ok ==> UserIdFor(s1, Text(request.value.sessionCookie.value)).None?)
      && (ok && other != request.value.sessionCookie.value ==> UserIdFor(s1, Text(other)) == UserIdFor(store, Text(other)))
  {
  }

  /** The class attribute `user_id_by_session_id`. */
  class SessionStore {
    var userIdBySessionId: map<string, string>

    constructor ()
      ensures userIdBySessionId == map[]
    {
      userIdBySessionId := map[];
    }
  }

  class SessionAuth {
    const store: SessionStore

    /** A new instance sees the sessions every other instance created. */
    constructor (store: SessionStore)
      ensures this.store == store
    {
      this.store := store;
    }

    method CreateSession(userId: Dynamic, freshId: string) returns (sessionId: Option<string>)
      modifies store
      ensures (store.userIdBySessionId, sessionId) == CreateStep(old(store.userIdBySessionId), userId, freshId)
    {
      if !userId.Text? {
        return None;
      }
      store.userIdBySessionId := store.userIdBySessionId[freshId := userId.s];
      sessionId := Some(freshId);
    }

    function UserIdForSessionId(sessionId: Dynamic): (r: Option<string>)
      reads store
      ensures r.Some? <==> sessionId.Text? && sessionId.s in store.userIdBySessionId
      ensures r.Some? ==> r.value == store.userIdBySessionId[sessionId.s]
    {
      UserIdFor(store.userIdBySessionId, sessionId)
    }

    method DestroySession(request: Option<Request>) returns (destroyed: bool)
      modifies store
      ensures (store.userIdBySessionId, destroyed) == DestroyStep(old(store.userIdBySessionId), request)
    {
      if request.None? {
        return false;
      }
      var sessionId := request.value.sessionCookie;
      if sessionId.None? {
        return false;
      }
      if sessionId.value !in store.userIdBySessionId {
        return false;
      }
      store.userIdBySessionId := store.userIdBySessionId - {sessionId.value};
      return true;
    }
  }
}
