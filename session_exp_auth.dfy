/** `SessionExpAuth`: sessions that expire `SESSION_DURATION` seconds after
    their creation (Session_authentication/api/v1/auth/session_exp_auth.py).
    The environment variable is passed in as text, the clock as an integer
    count of microseconds (the resolution of `datetime`), and the id
    `uuid.uuid4()` would produce as a parameter. */
module ExpiringSessions {
  import opened Wrappers
  import opened Strings

  /** The dict stored per session: `{'user_id': ..., 'created_at': ...}`;
      `createdAt` is None for a record without the 'created_at' key. */
  datatype SessionInfo = SessionInfo(userId: string, createdAt: Option<int>)

  const MicrosPerSecond: int := 1_000_000

  // ---- int(getenv('SESSION_DURATION', 0)) ----

  /** The whitespace Python's `int()` skips around the number (ASCII part). */
  predicate IsPySpace(c: char) { c == ' ' || ('\t' <= c <= '\r') }

  /** Python's literal grammar for the digits `int()` accepts: decimal
      digits, with single underscores allowed between two digits. */
  predicate WellFormedDigits(s: string) {
    && |s| > 0 && IsDigit(s[0]) && IsDigit(s[|s| - 1])
    && forall i :: 0 <= i < |s| ==> IsDigit(s[i]) || (s[i] == '_' && i + 1 < |s| && IsDigit(s[i + 1]))
  }

  function StripPySpace(s: string): (r: string)
    ensures |r| <= |s|
    decreases |s|
  {
    if |s| > 0 && IsPySpace(s[0]) then StripPySpace(s[1..])
    else if |s| > 0 && IsPySpace(s[|s| - 1]) then StripPySpace(s[..|s| - 1])
    else s
  }

  /** `int(text)`: None where Python raises ValueError. */
  function ParseInt(text: string): Option<int> {
    var t := StripPySpace(text);
    if |t| > 0 && (t[0] == '-' || t[0] == '+') then
      if WellFormedDigits(t[1..]) then Some(if t[0] == '-' then -(DigitsValue(t[1..]) as int) else DigitsValue(t[1..]) as int)
      else None
    else if WellFormedDigits(t) then Some(DigitsValue(t))
    else None
  }

  /** The constructor's `session_duration`: 0 when the variable is unset
      (the default 0 goes through `int`) and when `int` raises. */
  function SessionDuration(env: Option<string>): (r: int)
    ensures env.None? ==> r == 0
    ensures r != 0 ==> env.Some? && ParseInt(env.value) == Some(r)
  {
    if env.None? then 0
    else match ParseInt(env.value)
      case Some(n) => n
      case None => 0
  }

  lemma StripPySpaceDigits(s: string)
    requires |s| > 0 && !IsPySpace(s[0]) && !IsPySpace(s[|s| - 1])
    ensures StripPySpace(s) == s
  {
  }

  /** A duration written as a decimal number is read back as that
      number. */
  lemma SessionDurationOfDecimal(n: nat)
    ensures SessionDuration(Some(DecimalText(n))) == n
  {
    DigitsValueOfDecimal(n);
    StripPySpaceDigits(DecimalText(n));
  }

  /** A duration written with a minus sign is read back as the negative
      number. */
  lemma SessionDurationOfNegative(n: nat)
    ensures SessionDuration(Some("-" + DecimalText(n))) == -(n as int)
  {
    var d := DecimalText(n);
    DigitsValueOfDecimal(n);
    StripPySpaceDigits("-" + d);
    assert ("-" + d)[1..] == d;
  }

  /** An unset variable and text that is not a number both give 0. */
  lemma SessionDurationDefaults()
    ensures SessionDuration(Some("abc")) == 0 && SessionDuration(None) == 0
  {
    assert StripPySpace("abc") == "abc";
  }

  // ---- the lookup and its expiry rule ----

  /** `user_id_for_session_id(session_id)` at time `now`. A session is
      expired when `created_at + duration` lies strictly before `now`. */
  function UserIdFor(store: map<string, SessionInfo>, sessionId: Dynamic, duration: int, now: int): (r: Option<string>)
    ensures r.Some? ==> sessionId.Text? && sessionId.s in store && r.value == store[sessionId.s].userId
    ensures r.Some? && duration > 0 ==>
      store[sessionId.s].createdAt.Some? && now <= store[sessionId.s].createdAt.value + duration * MicrosPerSecond
  {
    if !sessionId.Text? || sessionId.s !in store then None
    else
      var info := store[sessionId.s];
      if duration <= 0 then Some(info.userId)
      else if info.createdAt.None? then None
      else if info.createdAt.value + duration * MicrosPerSecond < now then None
      else Some(info.userId)
  }

  /** None and unknown ids give None, whatever the duration. */
  lemma LookupOfUnknown(store: map<string, SessionInfo>, sessionId: Dynamic, duration: int, now: int)
    requires !sessionId.Text? || sessionId.s !in store
    ensures UserIdFor(store, sessionId, duration, now).None?
  {
  }

  /** Without a positive duration a session never expires. */
  lemma NoDurationNeverExpires(store: map<string, SessionInfo>, id: string, duration: int, now: int)
    requires id in store && duration <= 0
    ensures UserIdFor(store, Text(id), duration, now) == Some(store[id].userId)
  {
  }

  /** With a positive duration a record without a creation time gives None. */
  lemma NoCreationTimeIsRefused(store: map<string, SessionInfo>, id: string, duration: int, now: int)
    requires id in store && store[id].createdAt.None? && duration > 0
    ensures UserIdFor(store, Text(id), duration, now).None?
  {
  }

  /** A session created at `t` with a positive duration answers its user up
      to and including `t + duration` seconds, and None from one microsecond
      later on; expiry is permanent as time moves on. */
  lemma ExpiryBoundary(store: map<string, SessionInfo>, id: string, u: string, t: int, duration: int, now: int, later: int)
    requires id in store && store[id] == SessionInfo(u, Some(t)) && duration > 0
    ensures UserIdFor(store, Text(id), duration, now) == Some(u) <==> now <= t + duration * MicrosPerSecond
    ensures UserIdFor(store, Text(id), duration, now).None? <==> now > t + duration * MicrosPerSecond
    ensures UserIdFor(store, Text(id), duration, now).None? && later >= now ==> UserIdFor(store, Text(id), duration, later).None?
  {
  }

  /** `create_session(user_id)`: the new dict and the returned id. The
      parent's `create_session` first stores the bare user id under the new
      id; the record then replaces it, so only the record remains. */
  function CreateStep(store: map<string, SessionInfo>, userId: Dynamic, freshId: string, now: int)
    : (r: (map<string, SessionInfo>, Option<string>))
    ensures !userId.Text? ==> r == (store, None)
  {
    if userId.Text? then (store[freshId := SessionInfo(userId.s, Some(now))], Some(freshId)) else (store, None)
  }

  /** A session created at `now` looks up its user for `duration` seconds
      (forever when the duration is not positive); other entries keep
      their answers. */
  lemma CreateThenLookup(store: map<string, SessionInfo>, u: string, freshId: string, now: int,
                         duration: int, later: int, other: Dynamic)
    requires now <= later && (duration <= 0 || later <= now + duration * MicrosPerSecond)
    requires other != Text(freshId)
    ensures var (s1, id) := CreateStep(store, Text(u), freshId, now);
      id == Some(freshId) && UserIdFor(s1, Text(freshId), duration, later) == Some(u)
      && UserIdFor(s1, other, duration, later) == UserIdFor(store, other, duration, later)
  {
  }

  /** The session dict (the class attribute the parent class declares). */
  class ExpSessionStore {
    var sessions: map<string, SessionInfo>

    constructor ()
      ensures sessions == map[]
    {
      sessions := map[];
    }
  }

  class SessionExpAuth {
    const sessionDuration: int
    const store: ExpSessionStore

    constructor (env: Option<string>, store: ExpSessionStore)
      ensures sessionDuration == SessionDuration(env) && this.store == store
    {
      sessionDuration := SessionDuration(env);
      this.store := store;
    }

    method CreateSession(userId: Dynamic, freshId: string, now: int) returns (sessionId: Option<string>)
      modifies store
      ensures (store.sessions, sessionId) == CreateStep(old(store.sessions), userId, freshId, now)
    {
      if !userId.Text? {
        return None;
      }
      store.sessions := store.sessions[freshId := SessionInfo(userId.s, Some(now))];
      sessionId := Some(freshId);
    }

    /** Read-only: an expired session is refused but stays in the dict. */
    function UserIdForSessionId(sessionId: Dynamic, now: int): (r: Option<string>)
      reads store
      ensures r.Some? ==> sessionId.Text? && sessionId.s in store.sessions && r.value == store.sessions[sessionId.s].userId
      ensures r.Some? && sessionDuration > 0 ==>
        store.sessions[sessionId.s].createdAt.Some? && now <= store.sessions[sessionId.s].createdAt.value + sessionDuration * MicrosPerSecond
    {
      UserIdFor(store.sessions, sessionId, sessionDuration, now)
    }
  }
}
