/**
 * The session store of src/sessions.c. Redis is replaced by the map it
 * holds (key to stored value and expiry) and by whether the connection is
 * up; the module-level settings (`COOKIE_NAME`, `TTL`) are fields of the
 * same object. A command that gets no reply is folded into a connection
 * that is down: both make the operation return false and change nothing.
 */
module Sessions {
  import opened Wrappers
  import opened CString
  import opened Numeric
  import Uuid

  /** The initial value of `char COOKIE_NAME[64]`. */
  const DefaultCookieName := "cpc_session"
  /** The initial value of `TTL`: seven days in seconds. */
  const DefaultTtl := 604800
  /** `COOKIE_NAME` holds at most 63 characters and its NUL. */
  const CookieNameCap := 63
  /** `out_user_id[37]`: a user id is cut to 36 characters. */
  const UserIdCap := 36

  /** What `SETEX` stored: the value and the expiry it was given. */
  datatype Entry = Entry(value: string, ttl: int)

  /** Everything the store's operations read and write. */
  datatype StoreState = StoreState(
    connected: bool,
    data: map<string, Entry>,
    cookieName: string,
    ttl: int)

  /** The Redis key of a session id. */
  function Key(sid: string): string {
    "session:" + sid
  }

  /** Different ids are stored under different keys. */
  lemma KeyInjective(a: string, b: string)
    requires a != b
    ensures Key(a) != Key(b)
  {
    assert Key(a)[8..] == a && Key(b)[8..] == b;
  }

  /** `getenv_or`: an unset or empty variable gives the default. */
  function GetenvOr(v: Option<string>, d: string): (r: string)
    ensures v.Some? && v.value != [] ==> r == v.value
    ensures v.None? || v.value == [] ==> r == d
  {
    if v.Some? && v.value != [] then v.value else d
  }

  /** The expiry `sessions_create` passes to `SETEX`: its argument when positive, the configured TTL otherwise. */
  function EffectiveTtl(ttlSeconds: int, configured: int): (t: int)
    ensures ttlSeconds > 0 ==> t == ttlSeconds
    ensures ttlSeconds <= 0 ==> t == configured
  {
    if ttlSeconds > 0 then ttlSeconds else configured
  }

  /** The settings of `sessions_init`, with the environment given as values. */
  datatype Config = Config(
    connectOk: bool,             // `redisConnect` gave a usable context (REDIS_HOST, REDIS_PORT)
    selectOk: bool,              // `SELECT <db>` got a reply
    redisDb: Option<string>,     // REDIS_DB
    cookieName: Option<string>,  // SESSION_COOKIE_NAME
    ttl: Option<string>)         // SESSION_TTL_SECONDS

  /**
   * `sessions_init`: connect, select the database when its number is
   * positive, then take the cookie name and the TTL from the environment
   * when they are set and not empty. Returns the new state and the C
   * result (0 or -1); a failure leaves the settings untouched.
   */
  function InitSpec(st: StoreState, c: Config): (r: (StoreState, int))
    ensures r.1 == 0 || r.1 == -1
    ensures r.0.data == st.data
    ensures r.0.connected == c.connectOk
  {
    var db := Atoi(GetenvOr(c.redisDb, "0"));
    if !c.connectOk then (st.(connected := false), -1)
    else if db > 0 && !c.selectOk then (st.(connected := true), -1)
    else
      var name := if c.cookieName.Some? && c.cookieName.value != [] then Truncate(c.cookieName.value, CookieNameCap) else st.cookieName;
      var ttl := if c.ttl.Some? && c.ttl.value != [] then Atoi(c.ttl.value) else st.ttl;
      (StoreState(true, st.data, name, ttl), 0)
  }

  /**
   * `sessions_create` with the id `sid` that `uuid4` produced: `SETEX
   * session:<sid> <expiry> <user_id>`. Redis refuses a non-positive
   * expiry, and then, as without a connection, nothing is stored.
   */
  function CreateSpec(st: StoreState, userId: string, sid: string, ttlSeconds: int): (StoreState, bool) {
    var expiry := EffectiveTtl(ttlSeconds, st.ttl);
    if !st.connected || expiry <= 0 then (st, false)
    else (st.(data := st.data[Key(sid) := Entry(CStr(userId), expiry)]), true)
  }

  /**
   * `sessions_get_user`: `GET session:<sid>`; only a non-empty string value
   * is a hit, and it is copied with `%.*s` into 37 octets.
   */
  function GetSpec(st: StoreState, sid: string): (r: Option<string>)
    ensures r.Some? ==> |r.value| <= UserIdCap && '\0' !in r.value
  {
    if st.connected && Key(sid) in st.data && st.data[Key(sid)].value != [] then
      var v := CStr(st.data[Key(sid)].value);
      UpToSpec(st.data[Key(sid)].value, '\0');
      Some(Truncate(v, UserIdCap))
    else None
  }

  /** `sessions_delete`: `DEL session:<sid>`; any reply counts as success. */
  function DeleteSpec(st: StoreState, sid: string): (StoreState, bool) {
    if !st.connected then (st, false)
    else (st.(data := st.data - {Key(sid)}), true)
  }

  /** The store, with the state `sessions.c` keeps in static variables. */
  class SessionStore {
    var connected: bool
    var data: map<string, Entry>
    var cookieName: string
    var ttl: int

    function State(): StoreState
      reads this
    {
      StoreState(connected, data, cookieName, ttl)
    }

    /** Program start: no connection yet, the compiled-in defaults, and whatever the Redis server holds. */
    constructor (redis: map<string, Entry>)
      ensures State() == StoreState(false, redis, DefaultCookieName, DefaultTtl)
    {
      connected := false;
      data := redis;
      cookieName := DefaultCookieName;
      ttl := DefaultTtl;
    }

    /** `sessions_init`. */
    method Init(c: Config) returns (rc: int)
      modifies this
      ensures (State(), rc) == InitSpec(old(State()), c)
    {
      var db := Atoi(GetenvOr(c.redisDb, "0"));
      connected := c.connectOk;
      if !connected {
        return -1;
      }
      if db > 0 && !c.selectOk {
        return -1;
      }
      if c.cookieName.Some? && c.cookieName.value != [] {
        cookieName := Truncate(c.cookieName.value, CookieNameCap);
      }
      if c.ttl.Some? && c.ttl.value != [] {
        ttl := Atoi(c.ttl.value);
      }
      rc := 0;
    }

    /** `sessions_close`. */
    method Close()
      modifies this
      ensures State() == old(State()).(connected := false)
    {
      connected := false;
    }

    /**
     * `sessions_create`: the new id is `uuid4` of the given random octets;
     * it is handed out only when the store accepted it.
     */
    method Create(userId: string, random: seq<bv8>, ttlSeconds: int) returns (ok: bool, sid: string)
      requires |random| == 16
      modifies this
      ensures (State(), ok) == CreateSpec(old(State()), userId, Uuid.Uuid4(random), ttlSeconds)
      ensures sid == if ok then Uuid.Uuid4(random) else ""
    {
      if !connected {
        return false, "";
      }
      var s := Uuid.Uuid4(random);
      var expiry := if ttlSeconds > 0 then ttlSeconds else ttl;
      if expiry <= 0 {
        return false, "";
      }
      data := data[Key(s) := Entry(CStr(userId), expiry)];
      return true, s;
    }

    /** `sessions_get_user`. */
    method GetUser(sid: string) returns (ok: bool, uid: string)
      ensures ok <==> GetSpec(State(), sid).Some?
      ensures ok ==> uid == GetSpec(State(), sid).value
    {
      if !connected {
        return false, "";
      }
      var key := Key(sid);
      if key in data && data[key].value != [] {
        var v := data[key].value;
        var n := if |v| > UserIdCap then UserIdCap else |v|;
        CStrOfPrefix(v, n);
        UpToSpec(v, '\0');
        return true, CStr(v[..n]);
      }
      return false, "";
    }

    /** `sessions_delete`. */
    method Delete(sid: string) returns (ok: bool)
      modifies this
      ensures (State(), ok) == DeleteSpec(old(State()), sid)
    {
      if !connected {
        return false;
      }
      data := data - {Key(sid)};
      return true;
    }

    /** `sessions_cookie_name`. */
    function CookieName(): string
      reads this
    {
      cookieName
    }

    /** `sessions_ttl_seconds`. */
    function TtlSeconds(): int
      reads this
    {
      ttl
    }
  }

  // ---------------------------------------------------------------------
  // Properties of the store

  /** Without an environment override the defaults stay; a non-empty override replaces them. */
  lemma InitSettings(st: StoreState, c: Config)
    requires InitSpec(st, c).1 == 0
    ensures c.cookieName.None? || c.cookieName.value == [] ==> InitSpec(st, c).0.cookieName == st.cookieName
    ensures c.cookieName.Some? && c.cookieName.value != [] ==>
      InitSpec(st, c).0.cookieName == Truncate(c.cookieName.value, CookieNameCap)
    ensures c.ttl.None? || c.ttl.value == [] ==> InitSpec(st, c).0.ttl == st.ttl
    ensures c.ttl.Some? && c.ttl.value != [] ==> InitSpec(st, c).0.ttl == Atoi(c.ttl.value)
  {
  }

  /** With no connection every operation fails and nothing changes. */
  lemma Disconnected(st: StoreState, userId: string, sid: string, ttlSeconds: int)
    requires !st.connected
    ensures CreateSpec(st, userId, sid, ttlSeconds) == (st, false)
    ensures GetSpec(st, sid) == None
    ensures DeleteSpec(st, sid) == (st, false)
  {
  }

  /**
   * A failed create changes nothing; a successful one adds exactly the new
   * key, with the effective expiry, and keeps the connection and settings.
   */
  lemma CreateEffect(st: StoreState, userId: string, sid: string, ttlSeconds: int)
    ensures var (st', ok) := CreateSpec(st, userId, sid, ttlSeconds);
      && (ok <==> st.connected && EffectiveTtl(ttlSeconds, st.ttl) > 0)
      && (!ok ==> st' == st)
      && (ok ==> st' == st.(data := st'.data)
                 && st'.data.Keys == st.data.Keys + {Key(sid)}
                 && st'.data[Key(sid)] == Entry(CStr(userId), EffectiveTtl(ttlSeconds, st.ttl))
                 && forall k :: k in st.data && k != Key(sid) ==> st'.data[k] == st.data[k])
  {
  }

  /** A session read right after it was created gives back the user id, as `GET` copies it. */
  lemma CreateThenGet(st: StoreState, userId: string, sid: string, ttlSeconds: int)
    requires CreateSpec(st, userId, sid, ttlSeconds).1
    ensures GetSpec(CreateSpec(st, userId, sid, ttlSeconds).0, sid)
      == if CStr(userId) == [] then None else Some(Truncate(CStr(userId), UserIdCap))
  {
    UpToSpec(userId, '\0');
    assert CStr(CStr(userId)) == CStr(userId) by {
      CStrIdempotent(userId);
    }
  }

  lemma {:induction false} CStrIdempotent(s: string)
    ensures CStr(CStr(s)) == CStr(s)
  {
    if s != [] && s[0] != '\0' {
      CStrIdempotent(s[1..]);
      assert CStr(s) == [s[0]] + CStr(s[1..]);
      assert CStr(s)[1..] == CStr(s[1..]);
    }
  }

  /** Creating one session leaves every other session as it was. */
  lemma CreateKeepsOthers(st: StoreState, userId: string, sid: string, ttlSeconds: int, other: string)
    requires other != sid
    ensures GetSpec(CreateSpec(st, userId, sid, ttlSeconds).0, other) == GetSpec(st, other)
  {
    KeyInjective(other, sid);
  }

  /** After a delete the session misses, and deleting succeeds whether or not the key was there. */
  lemma DeleteThenGetMisses(st: StoreState, sid: string)
    ensures GetSpec(DeleteSpec(st, sid).0, sid) == None
    ensures DeleteSpec(st, sid).1 <==> st.connected
  {
  }

  /** Deleting twice is deleting once: the same state and the same answer. */
  lemma DeleteIdempotent(st: StoreState, sid: string)
    ensures DeleteSpec(DeleteSpec(st, sid).0, sid) == DeleteSpec(st, sid)
  {
    assert st.data - {Key(sid)} - {Key(sid)} == st.data - {Key(sid)};
  }

  /** Deleting one session leaves every other session as it was. */
  lemma DeleteKeepsOthers(st: StoreState, sid: string, other: string)
    requires other != sid
    ensures GetSpec(DeleteSpec(st, sid).0, other) == GetSpec(st, other)
  {
    KeyInjective(other, sid);
  }
}
