/**
 * The cookie/session protocol of src/auth.c: the session cookie's issue and
 * clear lines, the session id read back from the `Cookie` header, and the
 * signup, login, logout and me handlers.
 *
 * Each handler has a pure outcome (the new store state and the reply) and
 * an imperative method that writes to the socket and updates the store,
 * proved to follow the outcome.
 */
module Auth {
  import opened Wrappers
  import opened CString
  import opened Http
  import opened Sessions
  import opened Collaborators
  import Uuid

  /** SESSION_COOKIE_SECURE and SESSION_COOKIE_SAMESITE, None when unset. */
  datatype CookieEnv = CookieEnv(secure: Option<string>, sameSite: Option<string>)

  /** `cookie_secure_flag`: the variable is `1`, `true` or `yes` in any letter case. */
  predicate SecureFlag(v: Option<string>) {
    v.Some? && (Lower(v.value) == "1" || Lower(v.value) == "true" || Lower(v.value) == "yes")
  }

  /** `SecureFlag` is the three `strcasecmp` tests of the source. */
  lemma SecureFlagIsStrcasecmp(v: Option<string>)
    ensures SecureFlag(v) <==>
      v.Some? && (EqualsIgnoreCase(v.value, "1") || EqualsIgnoreCase(v.value, "true") || EqualsIgnoreCase(v.value, "yes"))
  {
    LowerPointwise("1", "1");
    LowerPointwise("true", "true");
    LowerPointwise("yes", "yes");
    if v.Some? {
      assert v.value[..|v.value|] == v.value;
    }
  }

  /** `cookie_samesite_attr`: the variable as set (even when empty), `Lax` when unset. */
  function SameSite(v: Option<string>): string {
    if v.Some? then v.value else "Lax"
  }

  function SecureAttr(env: CookieEnv): string {
    if SecureFlag(env.secure) then "; Secure" else ""
  }

  /** A `Set-Cookie` header line around a cookie pair and its attributes. */
  function SetCookieHeader(cookie: string): string {
    "Set-Cookie: " + cookie + "\r\n"
  }

  /** `set_session_cookie`: the line that hands the session id to the client. */
  function SetCookieLine(name: string, sid: string, env: CookieEnv): string {
    SetCookieHeader(name + "=" + sid + "; Path=/; HttpOnly; SameSite=" + SameSite(env.sameSite) + SecureAttr(env))
  }

  /** `clear_session_cookie`: the line that makes the client drop the cookie. */
  function ClearCookieLine(name: string, env: CookieEnv): string {
    SetCookieHeader(name + "=deleted; Path=/; HttpOnly; Max-Age=0; SameSite=" + SameSite(env.sameSite) + SecureAttr(env))
  }

  /** `char header[512]`: the longest line `snprintf` writes whole. */
  const CookieLineCap := 511

  /**
   * The cookie line fits its buffer, for a 36-character session id,
   * exactly when the cookie name, the SameSite value and the Secure
   * attribute together take at most 431 characters; the clearing line is
   * 18 characters shorter.
   */
  lemma CookieLinesFit(name: string, sid: string, env: CookieEnv)
    requires |sid| == 36
    ensures |SetCookieLine(name, sid, env)| <= CookieLineCap <==> |name| + |SameSite(env.sameSite)| + |SecureAttr(env)| <= 431
    ensures |ClearCookieLine(name, env)| == |SetCookieLine(name, sid, env)| - 18
  {
  }

  /** Both cookie lines start with the `Set-Cookie: ` header name. */
  lemma SetCookieHeaderPrefix(cookie: string)
    ensures HasPrefix(SetCookieHeader(cookie), "Set-Cookie: ")
  {
    assert SetCookieHeader(cookie) == "Set-Cookie: " + (cookie + "\r\n");
  }

  // ---------------------------------------------------------------------
  // Reading the session id back

  /** `snprintf(needle, 256, "%s=", name)`. */
  function CookieNeedle(name: string): string {
    Truncate(name + "=", 255)
  }

  /**
   * The value after the first `<name>=` in a cookie header, up to the next
   * `;` or the end, cut to `cap` characters. The match is a plain substring
   * search: it need not start a cookie pair. There is no value exactly
   * when `<name>=` occurs nowhere in the C string.
   */
  function CookieValue(header: string, name: string, cap: nat): (r: Option<string>)
    ensures r.Some? ==> |r.value| <= cap
    ensures r.None? <==> forall k: nat :: !OccursAt(CStr(header), CookieNeedle(name), k)
  {
    var h := CStr(header);
    var needle := CookieNeedle(name);
    FindFirst(h, needle);
    match Find(h, needle)
    case None => None
    case Some(i) => Some(Truncate(UpTo(h[i + |needle|..], ';'), cap))
  }

  /**
   * `parse_cookie_for_session`: no session for an empty header or one
   * without `<name>=`; a found value keeps at most 127 characters.
   */
  function ParseCookieForSession(header: string, name: string): (r: Option<string>)
    ensures r.Some? ==> |r.value| <= 127
    ensures r.None? <==> CStr(header) == [] || forall k: nat :: !OccursAt(CStr(header), CookieNeedle(name), k)
    ensures r.Some? ==> r == CookieValue(header, name, 127)
  {
    if CStr(header) == [] then None else CookieValue(header, name, 127)
  }

  /**
   * When `<name>=` first occurs after `pre`, the value read is what follows
   * it up to a `;` or the end, whatever `pre` holds: the match need not
   * start a cookie pair.
   */
  lemma CookieValueAfter(pre: string, name: string, v: string, rest: string, cap: nat)
    requires |name| < 255
    requires '\0' !in pre && '\0' !in name && '\0' !in v && '\0' !in rest
    requires ';' !in v && (rest == [] || rest[0] == ';')
    requires forall k: nat :: k < |pre| ==> !OccursAt(pre + name + "=" + v + rest, name + "=", k)
    ensures CookieValue(pre + name + "=" + v + rest, name, cap) == Some(Truncate(v, cap))
  {
    var needle := name + "=";
    var header := pre + needle + (v + rest);
    assert pre + name + "=" + v + rest == header;
    assert CookieNeedle(name) == needle;
    CStrNoNul(header);
    FindAfter(pre, needle, v + rest);
    assert header[|pre| + |needle|..] == v + rest;
    UpToConcat(v, rest, ';');
  }

  /** The header a client sends back after `Set-Cookie: <name>=<sid>`, as the reader stores it (with its leading blank). */
  function CookieHeaderFor(name: string, sid: string): string {
    " " + name + "=" + sid
  }

  /** A cookie name the read-back can find: short enough for the needle buffer, no NUL, not starting with a blank. */
  predicate UsableCookieName(name: string) {
    |name| < 255 && '\0' !in name && (name == [] || name[0] != ' ')
  }

  /**
   * A session id handed out in `Set-Cookie` is read back from the header
   * the client returns: whole when it fits the reader's cap, cut to the
   * cap otherwise.
   */
  lemma CookieRoundTrip(name: string, sid: string, cap: nat)
    requires UsableCookieName(name)
    requires '\0' !in sid && ';' !in sid
    ensures CookieValue(CookieHeaderFor(name, sid), name, cap) == Some(Truncate(sid, cap))
    ensures |sid| <= cap ==> CookieValue(CookieHeaderFor(name, sid), name, cap) == Some(sid)
  {
    var header := " " + name + "=" + sid + [];
    assert header == CookieHeaderFor(name, sid);
    forall k: nat | k < 1 ensures !OccursAt(header, name + "=", k) {
      assert header[0] == ' ';
      assert (name + "=")[0] != ' ';
    }
    CookieValueAfter(" ", name, sid, [], cap);
  }

  // ---------------------------------------------------------------------
  // The handlers' outcomes

  const InvalidJsonBody := "{\"error\":\"invalid_json\"}\n"
  const InvalidInputBody := "{\"error\":\"invalid_input\"}\n"
  const HashFailedBody := "{\"error\":\"hash_failed\"}\n"
  const EmailExistsBody := "{\"error\":\"email_exists\"}\n"
  const SessionFailedBody := "{\"error\":\"session_failed\"}\n"
  const BadCredentialsBody := "{\"error\":\"bad_credentials\"}\n"
  const UnauthorizedBody := "{\"error\":\"unauthorized\"}\n"
  const OkBody := "{\"ok\":true}\n"

  /** `json_parse_strict(req->body)` behind the `!req->body` test: None for a missing or unparsable body. */
  function ParseBody(b: Backend, req: Request): Option<JsonObject> {
    if req.body.None? then None else b.parse(CStr(req.body.value))
  }

  /**
   * The auto-login step shared by signup and login: create a session for
   * `uid` with the configured TTL and, when the store accepts it, answer
   * `code` with the session cookie set.
   */
  function StartSession(st: StoreState, uid: string, env: CookieEnv, random: seq<bv8>, code: int): (StoreState, Reply)
    requires |random| == 16
  {
    var sid := Uuid.Uuid4(random);
    var (st', ok) := CreateSpec(st, uid, sid, st.ttl);
    if !ok then (st', JsonReply(500, SessionFailedBody))
    else (st', Reply(SetCookieLine(st.cookieName, sid, env), code, OkBody))
  }

  /** `handle_signup`: the checks in the order the source makes them. */
  function SignupOutcome(st: StoreState, b: Backend, env: CookieEnv, req: Request, random: seq<bv8>): (StoreState, Reply)
    requires |random| == 16
  {
    if req.verb != "POST" then (st, MethodNotAllowed)
    else match ParseBody(b, req)
      case None => (st, JsonReply(400, InvalidJsonBody))
      case Some(root) =>
        var email := GetString(root, "email");
        var password := GetString(root, "password");
        if email.None? || password.None? || |password.value| < 8 then (st, JsonReply(400, InvalidInputBody))
        else match b.hash(password.value)
          case None => (st, JsonReply(500, HashFailedBody))
          case Some(hash) =>
            match b.userCreate(email.value, hash, "user")
            case None => (st, JsonReply(409, EmailExistsBody))
            case Some(uid) => StartSession(st, uid, env, random, 201)
  }

  /** `handle_login`: no length check; an unknown email and a wrong password give the same answer. */
  function LoginOutcome(st: StoreState, b: Backend, env: CookieEnv, req: Request, random: seq<bv8>): (StoreState, Reply)
    requires |random| == 16
  {
    if req.verb != "POST" then (st, MethodNotAllowed)
    else match ParseBody(b, req)
      case None => (st, JsonReply(400, InvalidJsonBody))
      case Some(root) =>
        var email := GetString(root, "email");
        var password := GetString(root, "password");
        if email.None? || password.None? then (st, JsonReply(400, InvalidInputBody))
        else match b.userFind(email.value)
          case None => (st, JsonReply(401, BadCredentialsBody))
          case Some(user) =>
            if !b.verify(user.1, password.value) then (st, JsonReply(401, BadCredentialsBody))
            else StartSession(st, user.0, env, random, 200)
  }

  /** `handle_logout`: delete the session the cookie names, if any, and always clear the cookie. */
  function LogoutOutcome(st: StoreState, env: CookieEnv, req: Request): (StoreState, Reply) {
    if req.verb != "POST" then (st, MethodNotAllowed)
    else
      var st' := match ParseCookieForSession(req.cookie, st.cookieName)
        case None => st
        case Some(sid) => DeleteSpec(st, sid).0;
      (st', Reply(ClearCookieLine(st.cookieName, env), 200, OkBody))
  }

  /** `{"user_id":"<uid>"}` and a newline, formatted into `char body[128]`. */
  function MeBody(uid: string): string {
    "{\"user_id\":\"" + uid + "\"}\n"
  }

  /** `handle_me`: the user id of the session the cookie names. */
  function MeReply(st: StoreState, req: Request): Reply {
    if req.verb != "GET" then MethodNotAllowed
    else match ParseCookieForSession(req.cookie, st.cookieName)
      case None => JsonReply(401, UnauthorizedBody)
      case Some(sid) =>
        match GetSpec(st, sid)
        case None => JsonReply(401, UnauthorizedBody)
        case Some(uid) => JsonReply(200, MeBody(uid))
  }

  // ---------------------------------------------------------------------
  // The handlers

  /** The auto-login tail of `handle_signup` and `handle_login`. */
  method StartSessionAndReply(sock: Socket, store: SessionStore, uid: string, env: CookieEnv, random: seq<bv8>, code: int)
    requires |random| == 16
    modifies sock, store
    ensures store.State() == StartSession(old(store.State()), uid, env, random, code).0
    ensures sock.out == old(sock.out) + Output(StartSession(old(store.State()), uid, env, random, code).1)
  {
    var ok, sid := store.Create(uid, random, store.TtlSeconds());
    if !ok {
      SendReply(sock, JsonReply(500, SessionFailedBody));
      return;
    }
    // `set_session_cookie`, then `http_send_json`
    SendReply(sock, Reply(SetCookieLine(store.CookieName(), sid, env), code, OkBody));
  }

  /** `handle_signup`. */
  method HandleSignup(sock: Socket, store: SessionStore, b: Backend, env: CookieEnv, req: Request, random: seq<bv8>)
    requires |random| == 16
    modifies sock, store
    ensures store.State() == SignupOutcome(old(store.State()), b, env, req, random).0
    ensures sock.out == old(sock.out) + Output(SignupOutcome(old(store.State()), b, env, req, random).1)
  {
    if req.verb != "POST" {
      SendReply(sock, MethodNotAllowed);
      return;
    }
    if req.body.None? {
      SendReply(sock, JsonReply(400, InvalidJsonBody));
      return;
    }
    var root := b.parse(CStr(req.body.value));
    if root.None? {
      SendReply(sock, JsonReply(400, InvalidJsonBody));
      return;
    }
    var email := GetString(root.value, "email");
    var password := GetString(root.value, "password");
    if email.None? || password.None? || |password.value| < 8 {
      SendReply(sock, JsonReply(400, InvalidInputBody));
      return;
    }
    var hash := b.hash(password.value);
    if hash.None? {
      SendReply(sock, JsonReply(500, HashFailedBody));
      return;
    }
    var uid := b.userCreate(email.value, hash.value, "user");
    if uid.None? {
      SendReply(sock, JsonReply(409, EmailExistsBody));
      return;
    }
    StartSessionAndReply(sock, store, uid.value, env, random, 201);
  }

  /** `handle_login`. */
  method HandleLogin(sock: Socket, store: SessionStore, b: Backend, env: CookieEnv, req: Request, random: seq<bv8>)
    requires |random| == 16
    modifies sock, store
    ensures store.State() == LoginOutcome(old(store.State()), b, env, req, random).0
    ensures sock.out == old(sock.out) + Output(LoginOutcome(old(store.State()), b, env, req, random).1)
  {
    if req.verb != "POST" {
      SendReply(sock, MethodNotAllowed);
      return;
    }
    if req.body.None? {
      SendReply(sock, JsonReply(400, InvalidJsonBody));
      return;
    }
    var root := b.parse(CStr(req.body.value));
    if root.None? {
      SendReply(sock, JsonReply(400, InvalidJsonBody));
      return;
    }
    var email := GetString(root.value, "email");
    var password := GetString(root.value, "password");
    if email.None? || password.None? {
      SendReply(sock, JsonReply(400, InvalidInputBody));
      return;
    }
    var user := b.userFind(email.value);
    if user.None? {
      SendReply(sock, JsonReply(401, BadCredentialsBody));
      return;
    }
    if !b.verify(user.value.1, password.value) {
      SendReply(sock, JsonReply(401, BadCredentialsBody));
      return;
    }
    StartSessionAndReply(sock, store, user.value.0, env, random, 200);
  }

  /** `handle_logout`. */
  method HandleLogout(sock: Socket, store: SessionStore, env: CookieEnv, req: Request)
    modifies sock, store
    ensures store.State() == LogoutOutcome(old(store.State()), env, req).0
    ensures sock.out == old(sock.out) + Output(LogoutOutcome(old(store.State()), env, req).1)
  {
    if req.verb != "POST" {
      SendReply(sock, MethodNotAllowed);
      return;
    }
    var sid := ParseCookieForSession(req.cookie, store.CookieName());
    if sid.Some? {
      var _ := store.Delete(sid.value);
    }
    // `clear_session_cookie`, then `http_send_json`
    SendReply(sock, Reply(ClearCookieLine(store.CookieName(), env), 200, OkBody));
  }

  /** `handle_me`. */
  method HandleMe(sock: Socket, store: SessionStore, req: Request)
    modifies sock
    ensures sock.out == old(sock.out) + Output(MeReply(store.State(), req))
  {
    if req.verb != "GET" {
      SendReply(sock, MethodNotAllowed);
      return;
    }
    var sid := ParseCookieForSession(req.cookie, store.CookieName());
    if sid.None? {
      SendReply(sock, JsonReply(401, UnauthorizedBody));
      return;
    }
    var ok, uid := store.GetUser(sid.value);
    if !ok {
      SendReply(sock, JsonReply(401, UnauthorizedBody));
      return;
    }
    SendReply(sock, JsonReply(200, MeBody(uid)));
  }

  // ---------------------------------------------------------------------
  // Properties of the handlers

  /** The email and password of a request body, when it parses and carries both as strings. */
  function Credentials(b: Backend, req: Request): Option<(string, string)> {
    match ParseBody(b, req)
    case None => None
    case Some(root) =>
      var email := GetString(root, "email");
      var password := GetString(root, "password");
      if email.Some? && password.Some? then Some((email.value, password.value)) else None
  }

  /**
   * A session start either fails with a 500 and no cookie, leaving the
   * store as it was, or answers `code` with the cookie line first.
   */
  lemma StartSessionShape(st: StoreState, uid: string, env: CookieEnv, random: seq<bv8>, code: int)
    requires |random| == 16
    ensures var (st', r) := StartSession(st, uid, env, random, code);
      || (r == JsonReply(500, SessionFailedBody) && st' == st)
      || (r.code == code && |r.preamble| > 0)
  {
  }

  /**
   * Signup answers one of its seven outcomes; only the 201 carries a
   * cookie, and every other outcome leaves the store as it was.
   */
  lemma SignupOutcomes(st: StoreState, b: Backend, env: CookieEnv, req: Request, random: seq<bv8>)
    requires |random| == 16
    ensures var (st', r) := SignupOutcome(st, b, env, req, random);
      && r.code in {201, 400, 405, 409, 500}
      && (r.code == 405 <==> req.verb != "POST")
      && (r.preamble != [] <==> r.code == 201)
      && (r.code != 201 ==> st' == st)
  {
    var o := SignupOutcome(st, b, env, req, random);
    var root := ParseBody(b, req);
    if req.verb != "POST" {
      assert o == (st, MethodNotAllowed);
    } else if root.None? {
      assert o == (st, JsonReply(400, InvalidJsonBody));
    } else {
      var email := GetString(root.value, "email");
      var password := GetString(root.value, "password");
      if email.None? || password.None? || |password.value| < 8 {
        assert o == (st, JsonReply(400, InvalidInputBody));
      } else if b.hash(password.value).None? {
        assert o == (st, JsonReply(500, HashFailedBody));
      } else {
        var uid := b.userCreate(email.value, b.hash(password.value).value, "user");
        if uid.None? {
          assert o == (st, JsonReply(409, EmailExistsBody));
        } else {
          assert o == StartSession(st, uid.value, env, random, 201);
          StartSessionShape(st, uid.value, env, random, 201);
        }
      }
    }
  }

  /**
   * Signup succeeds exactly when every check passes: a POST whose body
   * has an email and a password of at least 8 characters, a hash, a new
   * user and a session the store accepts.
   */
  lemma SignupSucceeds(st: StoreState, b: Backend, env: CookieEnv, req: Request, random: seq<bv8>)
    requires |random| == 16
    ensures SignupOutcome(st, b, env, req, random).1.code == 201 <==>
      && req.verb == "POST"
      && Credentials(b, req).Some?
      && |Credentials(b, req).value.1| >= 8
      && b.hash(Credentials(b, req).value.1).Some?
      && b.userCreate(Credentials(b, req).value.0, b.hash(Credentials(b, req).value.1).value, "user").Some?
      && st.connected && st.ttl > 0
  {
  }

  /** A password shorter than 8 characters is refused before it is hashed or stored, whatever those would do. */
  lemma SignupShortPassword(st: StoreState, b: Backend, env: CookieEnv, req: Request, random: seq<bv8>)
    requires |random| == 16
    requires req.verb == "POST" && Credentials(b, req).Some? && |Credentials(b, req).value.1| < 8
    ensures SignupOutcome(st, b, env, req, random) == (st, JsonReply(400, InvalidInputBody))
  {
  }

  /** Login answers one of its six outcomes; only the 200 carries a cookie, and every other outcome leaves the store as it was. */
  lemma LoginOutcomes(st: StoreState, b: Backend, env: CookieEnv, req: Request, random: seq<bv8>)
    requires |random| == 16
    ensures var (st', r) := LoginOutcome(st, b, env, req, random);
      && r.code in {200, 400, 401, 405, 500}
      && (r.code == 405 <==> req.verb != "POST")
      && (r.preamble != [] <==> r.code == 200)
      && (r.code != 200 ==> st' == st)
  {
    var o := LoginOutcome(st, b, env, req, random);
    var root := ParseBody(b, req);
    if req.verb != "POST" {
      assert o == (st, MethodNotAllowed);
    } else if root.None? {
      assert o == (st, JsonReply(400, InvalidJsonBody));
    } else {
      var email := GetString(root.value, "email");
      var password := GetString(root.value, "password");
      if email.None? || password.None? {
        assert o == (st, JsonReply(400, InvalidInputBody));
      } else {
        var user := b.userFind(email.value);
        if user.None? || !b.verify(user.value.1, password.value) {
          assert o == (st, JsonReply(401, BadCredentialsBody));
        } else {
          assert o == StartSession(st, user.value.0, env, random, 200);
          StartSessionShape(st, user.value.0, env, random, 200);
        }
      }
    }
  }

  /**
   * Login succeeds exactly when the user exists, the password verifies
   * against the stored hash and the store accepts the session; the
   * password's length is not checked.
   */
  lemma LoginSucceeds(st: StoreState, b: Backend, env: CookieEnv, req: Request, random: seq<bv8>)
    requires |random| == 16
    ensures LoginOutcome(st, b, env, req, random).1.code == 200 <==>
      && req.verb == "POST"
      && Credentials(b, req).Some?
      && b.userFind(Credentials(b, req).value.0).Some?
      && b.verify(b.userFind(Credentials(b, req).value.0).value.1, Credentials(b, req).value.1)
      && st.connected && st.ttl > 0
  {
  }

  /**
   * An unknown email and a wrong password are answered alike: a client
   * cannot tell from the reply which of the two it was.
   */
  lemma LoginFailuresIdentical(st: StoreState, unknown: Backend, wrong: Backend, env: CookieEnv, req: Request, random: seq<bv8>)
    requires |random| == 16
    requires req.verb == "POST"
    requires Credentials(unknown, req).Some? && Credentials(wrong, req) == Credentials(unknown, req)
    requires unknown.userFind(Credentials(unknown, req).value.0).None?
    requires var user := wrong.userFind(Credentials(unknown, req).value.0);
      user.Some? && !wrong.verify(user.value.1, Credentials(unknown, req).value.1)
    ensures LoginOutcome(st, unknown, env, req, random) == LoginOutcome(st, wrong, env, req, random)
    ensures LoginOutcome(st, unknown, env, req, random) == (st, JsonReply(401, BadCredentialsBody))
  {
  }

  /**
   * A session start that succeeds writes the `Set-Cookie` line before the
   * status line: the output starts with `Set-Cookie: `, not `HTTP/1.1`.
   */
  lemma SessionCookieComesFirst(st: StoreState, uid: string, env: CookieEnv, random: seq<bv8>, code: int)
    requires |random| == 16
    requires StartSession(st, uid, env, random, code).1.preamble != []
    ensures var out := Output(StartSession(st, uid, env, random, code).1);
      HasPrefix(out, "Set-Cookie: ") && !HasPrefix(out, "HTTP/1.1 ")
  {
    var r := StartSession(st, uid, env, random, code).1;
    var cookie := st.cookieName + "=" + Uuid.Uuid4(random) + "; Path=/; HttpOnly; SameSite=" + SameSite(env.sameSite) + SecureAttr(env);
    SetCookieHeaderPrefix(cookie);
    PrefixOfConcat(SetCookieHeader(cookie), JsonResponse(r.code, r.json), "Set-Cookie: ");
    NotPrefixByFirst(Output(r), "HTTP/1.1 ");
  }

  /** A string whose first character differs from the prefix's does not start with it. */
  lemma NotPrefixByFirst(s: string, p: string)
    requires |p| > 0 && |s| > 0 && s[0] != p[0]
    ensures !HasPrefix(s, p)
  {
  }

  /** A prefix of the first part is a prefix of the whole. */
  lemma PrefixOfConcat(a: string, b: string, p: string)
    requires HasPrefix(a, p)
    ensures HasPrefix(a + b, p)
    ensures |p| > 0 ==> (a + b)[0] == p[0]
  {
    assert (a + b)[..|p|] == a[..|p|];
  }

  /** Logout's reply depends on the cookie name and the environment only, not on which sessions exist. */
  lemma LogoutReplyIndependent(st1: StoreState, st2: StoreState, env: CookieEnv, req: Request)
    requires st1.cookieName == st2.cookieName
    ensures LogoutOutcome(st1, env, req).1 == LogoutOutcome(st2, env, req).1
  {
  }

  /** Logging out twice is logging out once: the same store and the same reply. */
  lemma LogoutIdempotent(st: StoreState, env: CookieEnv, req: Request)
    ensures LogoutOutcome(LogoutOutcome(st, env, req).0, env, req) == LogoutOutcome(st, env, req)
  {
    if req.verb == "POST" {
      var sid := ParseCookieForSession(req.cookie, st.cookieName);
      if sid.Some? {
        DeleteIdempotent(st, sid.value);
      }
    }
  }

  /** A POST to logout always answers 200 with the clearing cookie, and a parsed session is gone afterwards. */
  lemma LogoutRevokes(st: StoreState, env: CookieEnv, req: Request)
    requires req.verb == "POST"
    ensures LogoutOutcome(st, env, req).1 == Reply(ClearCookieLine(st.cookieName, env), 200, OkBody)
    ensures var sid := ParseCookieForSession(req.cookie, st.cookieName);
      sid.Some? ==> GetSpec(LogoutOutcome(st, env, req).0, sid.value).None?
  {
    var sid := ParseCookieForSession(req.cookie, st.cookieName);
    if sid.Some? {
      DeleteThenGetMisses(st, sid.value);
    }
  }

  /** `/api/me` answers 200 exactly for a GET whose cookie names a stored session, with that session's user id. */
  lemma MeAuthorized(st: StoreState, req: Request)
    ensures MeReply(st, req).code == 200 <==>
      req.verb == "GET" && ParseCookieForSession(req.cookie, st.cookieName).Some?
      && GetSpec(st, ParseCookieForSession(req.cookie, st.cookieName).value).Some?
    ensures MeReply(st, req).code == 200 ==>
      MeReply(st, req).json == MeBody(GetSpec(st, ParseCookieForSession(req.cookie, st.cookieName).value).value)
    ensures MeReply(st, req).code in {200, 401, 405}
    ensures MeReply(st, req).code == 405 <==> req.verb != "GET"
  {
  }
}
