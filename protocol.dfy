/**
 * The session protocol end to end, across requests: a successful login
 * hands out a cookie that `/api/me` and the vehicle endpoints accept, a
 * logout ends it, and neither touches any other session.
 */
module Protocol {
  import opened Wrappers
  import opened CString
  import opened Http
  import opened Sessions
  import opened Collaborators
  import opened Auth
  import opened Vehicles
  import opened Router
  import Uuid

  /** A session id in canonical form can travel in a cookie: no NUL, no `;`, and short enough for both readers. */
  lemma CanonicalIdIsCookieSafe(sid: string)
    requires Uuid.IsCanonical(sid)
    ensures '\0' !in sid && ';' !in sid && |sid| <= SessionIdCap
  {
    forall i | 0 <= i < 36 ensures sid[i] != '\0' && sid[i] != ';' {
      assert Uuid.IsDashPosition(i) || Uuid.IsLowerHex(sid[i]);
    }
  }

  /**
   * The cookie a client sends back names exactly the session it was
   * given, for `/api/me` and for the vehicle endpoints alike.
   */
  lemma IssuedCookieNamesSession(st: StoreState, random: seq<bv8>)
    requires |random| == 16
    requires UsableCookieName(st.cookieName)
    ensures var sid := Uuid.Uuid4(random);
      var header := CookieHeaderFor(st.cookieName, sid);
      && ParseCookieForSession(header, st.cookieName) == Some(sid)
      && UserFromCookie(st, header) == GetSpec(st, sid)
  {
    var sid := Uuid.Uuid4(random);
    CanonicalIdIsCookieSafe(sid);
    ReadersAgreeOnIssuedIds(st, sid);
  }

  /**
   * A login that succeeds stores a session under the id it hands out,
   * holding the user's id as the store keeps it, and leaves the cookie
   * name as it was.
   */
  lemma LoginCreatesSession(st: StoreState, b: Backend, env: Environment, loginId: string, login: Request, random: seq<bv8>)
    requires |random| == 16
    requires RouteOf(login.verb, login.path) == Login
    requires ServeOutcome(st, b, env, loginId, login, random).1.code == 200
    ensures Credentials(b, login).Some? && b.userFind(Credentials(b, login).value.0).Some?
    ensures var uid := b.userFind(Credentials(b, login).value.0).value.0;
      var st' := ServeOutcome(st, b, env, loginId, login, random).0;
      && st'.cookieName == st.cookieName
      && GetSpec(st', Uuid.Uuid4(random)) == if CStr(uid) == [] then None else Some(Truncate(CStr(uid), UserIdCap))
  {
    LoginSucceeds(st, b, env.cookie, login, random);
    var uid := b.userFind(Credentials(b, login).value.0).value.0;
    var sid := Uuid.Uuid4(random);
    assert ServeOutcome(st, b, env, loginId, login, random).0 == CreateSpec(st, uid, sid, st.ttl).0;
    CreateThenGet(st, uid, sid, st.ttl);
  }

  /**
   * After a login that succeeds, a GET of `/api/me` carrying the issued
   * cookie answers 200 with the user's id (as the store keeps it: cut at
   * a NUL and to 36 characters). Only a user id that is empty as a C
   * string makes the new session unusable.
   */
  lemma LoginThenMe(st: StoreState, b: Backend, env: Environment, loginId: string, login: Request, random: seq<bv8>,
                    meId: string, me: Request, random2: seq<bv8>)
    requires |random| == 16 && |random2| == 16
    requires UsableCookieName(st.cookieName)
    requires RouteOf(login.verb, login.path) == Login
    requires ServeOutcome(st, b, env, loginId, login, random).1.code == 200
    requires RouteOf(me.verb, me.path) == Me && me.verb == "GET"
    requires me.cookie == CookieHeaderFor(st.cookieName, Uuid.Uuid4(random))
    ensures var uid := b.userFind(Credentials(b, login).value.0).value.0;
      var st' := ServeOutcome(st, b, env, loginId, login, random).0;
      ServeOutcome(st', b, env, meId, me, random2).1 ==
        if CStr(uid) == [] then JsonReply(401, UnauthorizedBody) else JsonReply(200, MeBody(Truncate(CStr(uid), UserIdCap)))
  {
    LoginCreatesSession(st, b, env, loginId, login, random);
    var st' := ServeOutcome(st, b, env, loginId, login, random).0;
    IssuedCookieNamesSession(st', random);
  }

  /**
   * After a login that succeeds, the vehicle listing accepts the issued
   * cookie: it answers for the logged-in user, as the database lists
   * that user's vehicles.
   */
  lemma LoginThenListVehicles(st: StoreState, b: Backend, env: Environment, loginId: string, login: Request, random: seq<bv8>,
                              listId: string, list: Request, random2: seq<bv8>)
    requires |random| == 16 && |random2| == 16
    requires UsableCookieName(st.cookieName)
    requires RouteOf(login.verb, login.path) == Login
    requires ServeOutcome(st, b, env, loginId, login, random).1.code == 200
    requires list.verb == "GET" && list.path == "/api/vehicles"
    requires list.cookie == CookieHeaderFor(st.cookieName, Uuid.Uuid4(random))
    requires CStr(b.userFind(Credentials(b, login).value.0).value.0) != []
    ensures var uid := Truncate(CStr(b.userFind(Credentials(b, login).value.0).value.0), UserIdCap);
      var st' := ServeOutcome(st, b, env, loginId, login, random).0;
      ServeOutcome(st', b, env, listId, list, random2).1 ==
        match b.vehiclesList(uid)
        case None => JsonReply(500, DbErrorBody)
        case Some(json) => JsonReply(200, json)
  {
    LoginCreatesSession(st, b, env, loginId, login, random);
    var uid := b.userFind(Credentials(b, login).value.0).value.0;
    var st' := ServeOutcome(st, b, env, loginId, login, random).0;
    IssuedCookieNamesSession(st', random);
    assert UserFromCookie(st', list.cookie) == Some(Truncate(CStr(uid), UserIdCap));
    ExactRoutesNeedTheirMethod(list.verb);
    assert ServeOutcome(st', b, env, listId, list, random2).1 == VehiclesListReply(st', b, list);
  }

  /**
   * Logging out ends the session the cookie names: `/api/me` with the same
   * cookie answers 401 afterwards, whatever the session was.
   */
  lemma LogoutThenMe(st: StoreState, b: Backend, env: Environment, logoutId: string, logout: Request, random: seq<bv8>,
                     meId: string, me: Request, random2: seq<bv8>)
    requires |random| == 16 && |random2| == 16
    requires RouteOf(logout.verb, logout.path) == Logout && logout.verb == "POST"
    requires RouteOf(me.verb, me.path) == Me && me.verb == "GET"
    requires me.cookie == logout.cookie
    ensures var st' := ServeOutcome(st, b, env, logoutId, logout, random).0;
      ServeOutcome(st', b, env, meId, me, random2).1 == JsonReply(401, UnauthorizedBody)
  {
    LogoutRevokes(st, env.cookie, logout);
  }

  /**
   * A login touches only the session it creates and a logout only the
   * one it ends: every other session id reads as before.
   */
  lemma SessionsAreIndependent(st: StoreState, b: Backend, env: Environment, requestId: string, req: Request, random: seq<bv8>,
                               other: string)
    requires |random| == 16
    requires RouteOf(req.verb, req.path) in {Signup, Login} ==> other != Uuid.Uuid4(random)
    requires RouteOf(req.verb, req.path) == Logout ==>
      var sid := ParseCookieForSession(req.cookie, st.cookieName); sid.None? || other != sid.value
    ensures GetSpec(ServeOutcome(st, b, env, requestId, req, random).0, other) == GetSpec(st, other)
  {
    var o := ServeOutcome(st, b, env, requestId, req, random);
    var sid := Uuid.Uuid4(random);
    match RouteOf(req.verb, req.path)
    case Signup =>
      assert o == SignupOutcome(st, b, env.cookie, req, random);
      SignupOutcomes(st, b, env.cookie, req, random);
      if o.0 != st {
        SignupSucceeds(st, b, env.cookie, req, random);
        var uid := b.userCreate(Credentials(b, req).value.0, b.hash(Credentials(b, req).value.1).value, "user").value;
        assert o.0 == CreateSpec(st, uid, sid, st.ttl).0;
        CreateKeepsOthers(st, uid, sid, st.ttl, other);
      }
    case Login =>
      assert o == LoginOutcome(st, b, env.cookie, req, random);
      LoginOutcomes(st, b, env.cookie, req, random);
      if o.0 != st {
        LoginSucceeds(st, b, env.cookie, req, random);
        var uid := b.userFind(Credentials(b, req).value.0).value.0;
        assert o.0 == CreateSpec(st, uid, sid, st.ttl).0;
        CreateKeepsOthers(st, uid, sid, st.ttl, other);
      }
    case Logout =>
      assert o == LogoutOutcome(st, env.cookie, req);
      var cookieSid := ParseCookieForSession(req.cookie, st.cookieName);
      if req.verb == "POST" && cookieSid.Some? {
        DeleteKeepsOthers(st, cookieSid.value, other);
      }
    case _ =>
      OnlyAuthRoutesWrite(st, b, env, requestId, req, random);
  }
}
