/**
 * The vehicle endpoints of src/vehicles.c: both authenticate the session
 * cookie first, then list the user's vehicles or insert a new one through
 * the database.
 *
 * As in the auth handlers, each endpoint has a pure reply and a method that
 * writes it to the socket. Neither endpoint changes the session store.
 */
module Vehicles {
  import opened Wrappers
  import opened CString
  import opened Http
  import opened Sessions
  import opened Collaborators
  import opened Auth
  import opened Numeric

  /** `char cookie[2048]`: the copy of the header the lookup searches. */
  const CookieCopyCap := 2047

  /** The longest session id `get_user_from_cookie` passes on. */
  const SessionIdCap := 120

  const DbErrorBody := "{\"error\":\"db_error\"}\n"

  /**
   * `get_user_from_cookie`: the value after `<name>=` in the copied header,
   * cut to 120 characters, looked up in the store. Unlike
   * `ParseCookieForSession` it has no empty-header test; an empty header
   * fails the search anyway.
   */
  function UserFromCookie(st: StoreState, header: string): Option<string> {
    match CookieValue(Truncate(CStr(header), CookieCopyCap), st.cookieName, SessionIdCap)
    case None => None
    case Some(sid) => GetSpec(st, sid)
  }

  /**
   * A header whose first 2047 characters hold no `<name>=` authenticates
   * nobody; one that holds it is looked up under the value after the first
   * occurrence.
   */
  lemma CookieNameAbsentIsAnonymous(st: StoreState, header: string)
    ensures var copy := Truncate(CStr(header), CookieCopyCap);
      var needle := CookieNeedle(st.cookieName);
      (forall k: nat :: !OccursAt(copy, needle, k)) <==> CookieValue(copy, st.cookieName, SessionIdCap).None?
    ensures var copy := Truncate(CStr(header), CookieCopyCap);
      var needle := CookieNeedle(st.cookieName);
      (forall k: nat :: !OccursAt(copy, needle, k)) ==> UserFromCookie(st, header).None?
  {
    var copy := Truncate(CStr(header), CookieCopyCap);
    assert '\0' !in copy by { UpToSpec(header, '\0'); }
    CStrNoNul(copy);
  }

  /** An empty `Cookie` header authenticates nobody. */
  lemma EmptyCookieIsAnonymous(st: StoreState, header: string)
    requires CStr(header) == []
    ensures UserFromCookie(st, header).None?
  {
    var needle := CookieNeedle(st.cookieName);
    assert |needle| > 0;
    assert CStr(Truncate(CStr(header), CookieCopyCap)) == [] by {
      assert Truncate(CStr(header), CookieCopyCap) == [];
      UpToSpec([], '\0');
    }
  }

  /** `handle_vehicles_list`. */
  function VehiclesListReply(st: StoreState, b: Backend, req: Request): Reply {
    if req.verb != "GET" then MethodNotAllowed
    else match UserFromCookie(st, req.cookie)
      case None => JsonReply(401, UnauthorizedBody)
      case Some(uid) =>
        match b.vehiclesList(uid)
        case None => JsonReply(500, DbErrorBody)
        case Some(json) => JsonReply(200, json)
  }

  /** The fields of a new vehicle, as `handle_vehicles_create` collects them. */
  datatype NewVehicle = NewVehicle(year: int, make: string, model: string, nickname: string)

  /**
   * `year` an integer, `make` and `model` strings, and `nickname` a string
   * when it is one and empty otherwise.
   */
  function VehicleInput(root: JsonObject): (r: Option<NewVehicle>)
    ensures r.Some? <==>
      && "year" in root && root["year"].JInteger?
      && "make" in root && root["make"].JString?
      && "model" in root && root["model"].JString?
    ensures r.Some? ==>
      && root["make"] == JString(r.value.make)
      && root["model"] == JString(r.value.model)
      && GetInt(root, "year") == Some(r.value.year)
      && r.value.year == Wrap32(root["year"].value)
      && r.value.nickname == (if "nickname" in root && root["nickname"].JString? then root["nickname"].text else "")
  {
    var year := GetInt(root, "year");
    var make := GetString(root, "make");
    var model := GetString(root, "model");
    if year.None? || make.None? || model.None? then None
    else Some(NewVehicle(year.value, make.value, model.value, GetString(root, "nickname").GetOr("")))
  }

  /** `handle_vehicles_create`: method, then session, then body, then fields, then the insert. */
  function VehiclesCreateReply(st: StoreState, b: Backend, req: Request): Reply {
    if req.verb != "POST" then MethodNotAllowed
    else match UserFromCookie(st, req.cookie)
      case None => JsonReply(401, UnauthorizedBody)
      case Some(uid) =>
        match ParseBody(b, req)
        case None => JsonReply(400, InvalidJsonBody)
        case Some(root) =>
          match VehicleInput(root)
          case None => JsonReply(400, InvalidInputBody)
          case Some(v) =>
            match b.vehicleInsert(uid, v.year, v.make, v.model, v.nickname)
            case None => JsonReply(500, DbErrorBody)
            case Some(out) => JsonReply(201, out)
  }

  // ---------------------------------------------------------------------
  // The handlers

  /** The session lookup of both handlers. */
  method UserOfRequest(store: SessionStore, req: Request) returns (ok: bool, uid: string)
    ensures ok <==> UserFromCookie(store.State(), req.cookie).Some?
    ensures ok ==> uid == UserFromCookie(store.State(), req.cookie).value
  {
    var cookie := Truncate(CStr(req.cookie), CookieCopyCap);
    var sid := CookieValue(cookie, store.CookieName(), SessionIdCap);
    if sid.None? {
      return false, "";
    }
    ok, uid := store.GetUser(sid.value);
  }

  method HandleVehiclesList(sock: Socket, store: SessionStore, b: Backend, req: Request)
    modifies sock
    ensures sock.out == old(sock.out) + Output(VehiclesListReply(store.State(), b, req))
  {
    if req.verb != "GET" {
      SendReply(sock, MethodNotAllowed);
      return;
    }
    var ok, uid := UserOfRequest(store, req);
    if !ok {
      SendReply(sock, JsonReply(401, UnauthorizedBody));
      return;
    }
    var json := b.vehiclesList(uid);
    if json.None? {
      SendReply(sock, JsonReply(500, DbErrorBody));
      return;
    }
    SendReply(sock, JsonReply(200, json.value));
  }

  method HandleVehiclesCreate(sock: Socket, store: SessionStore, b: Backend, req: Request)
    modifies sock
    ensures sock.out == old(sock.out) + Output(VehiclesCreateReply(store.State(), b, req))
  {
    if req.verb != "POST" {
      SendReply(sock, MethodNotAllowed);
      return;
    }
    var ok, uid := UserOfRequest(store, req);
    if !ok {
      SendReply(sock, JsonReply(401, UnauthorizedBody));
      return;
    }
    if req.body.None? {
      SendReply(sock, JsonReply(400, InvalidJsonBody));
      return;
    }
    var root := b.parse(CStr(req.body.value));
    if root.None? {
      SendReply(sock, JsonReply(400, InvalidJsonBody));
      return;
    }
    var year := GetInt(root.value, "year");
    var make := GetString(root.value, "make");
    var model := GetString(root.value, "model");
    if year.None? || make.None? || model.None? {
      SendReply(sock, JsonReply(400, InvalidInputBody));
      return;
    }
    var nickname := "";
    var nn := GetString(root.value, "nickname");
    if nn.Some? {
      nickname := nn.value;
    }
    var out := b.vehicleInsert(uid, year.value, make.value, model.value, nickname);
    if out.None? {
      SendReply(sock, JsonReply(500, DbErrorBody));
      return;
    }
    SendReply(sock, JsonReply(201, out.value));
  }

  // ---------------------------------------------------------------------
  // Properties of the handlers

  /** The listing answers 200 with the database's JSON exactly for a GET by a signed-in user whose listing succeeds. */
  lemma ListSucceeds(st: StoreState, b: Backend, req: Request)
    ensures VehiclesListReply(st, b, req).code in {200, 401, 405, 500}
    ensures VehiclesListReply(st, b, req).code == 405 <==> req.verb != "GET"
    ensures VehiclesListReply(st, b, req).preamble == []
    ensures VehiclesListReply(st, b, req).code == 200 <==>
      req.verb == "GET" && UserFromCookie(st, req.cookie).Some?
      && b.vehiclesList(UserFromCookie(st, req.cookie).value).Some?
    ensures VehiclesListReply(st, b, req).code == 200 ==>
      VehiclesListReply(st, b, req).json == b.vehiclesList(UserFromCookie(st, req.cookie).value).value
  {
  }

  /**
   * Creation answers 201 exactly when a signed-in user POSTs a body with
   * the required fields and the insert succeeds; the row is inserted for
   * the session's user, never for one named in the body.
   */
  lemma CreateSucceeds(st: StoreState, b: Backend, req: Request)
    ensures VehiclesCreateReply(st, b, req).code in {201, 400, 401, 405, 500}
    ensures VehiclesCreateReply(st, b, req).code == 405 <==> req.verb != "POST"
    ensures VehiclesCreateReply(st, b, req).preamble == []
    ensures VehiclesCreateReply(st, b, req).code == 201 <==>
      && req.verb == "POST"
      && UserFromCookie(st, req.cookie).Some?
      && ParseBody(b, req).Some?
      && VehicleInput(ParseBody(b, req).value).Some?
      && var v := VehicleInput(ParseBody(b, req).value).value;
         b.vehicleInsert(UserFromCookie(st, req.cookie).value, v.year, v.make, v.model, v.nickname).Some?
  {
  }

  /**
   * Without a valid session both endpoints answer 401 before anything
   * else is consulted: the reply is the same whatever the database, the
   * JSON reader or the body.
   */
  lemma AuthenticateFirst(st: StoreState, b1: Backend, b2: Backend, req1: Request, req2: Request)
    requires req1.verb == req2.verb && req1.cookie == req2.cookie
    requires UserFromCookie(st, req1.cookie).None?
    ensures VehiclesListReply(st, b1, req1) == VehiclesListReply(st, b2, req2)
    ensures VehiclesCreateReply(st, b1, req1) == VehiclesCreateReply(st, b2, req2)
    ensures req1.verb == "POST" ==> VehiclesCreateReply(st, b1, req1) == JsonReply(401, UnauthorizedBody)
  {
  }

  /**
   * The two cookie readers differ in how much of a session id they keep:
   * `/api/me` keeps 127 characters and the vehicle endpoints 120. An id
   * of 121 to 127 characters reaches the store whole from one and cut
   * from the other.
   */
  lemma SessionIdCapsDiffer(name: string, sid: string)
    requires UsableCookieName(name)
    requires '\0' !in sid && ';' !in sid && |sid| <= 127
    ensures ParseCookieForSession(CookieHeaderFor(name, sid), name) == Some(sid)
    ensures CookieValue(Truncate(CStr(CookieHeaderFor(name, sid)), CookieCopyCap), name, SessionIdCap)
      == Some(Truncate(sid, SessionIdCap))
  {
    var header := CookieHeaderFor(name, sid);
    assert '\0' !in header;
    CStrNoNul(header);
    assert Truncate(CStr(header), CookieCopyCap) == header;
    CookieRoundTrip(name, sid, 127);
    CookieRoundTrip(name, sid, SessionIdCap);
  }

  /**
   * For the ids the server hands out, both readers find the same session:
   * on the header `<name>=<id>` with an id of at most 120 characters, the
   * vehicle endpoints authenticate exactly when `/api/me` does.
   */
  lemma ReadersAgreeOnIssuedIds(st: StoreState, sid: string)
    requires UsableCookieName(st.cookieName)
    requires '\0' !in sid && ';' !in sid && |sid| <= SessionIdCap
    ensures UserFromCookie(st, CookieHeaderFor(st.cookieName, sid)) == GetSpec(st, sid)
    ensures ParseCookieForSession(CookieHeaderFor(st.cookieName, sid), st.cookieName) == Some(sid)
  {
    SessionIdCapsDiffer(st.cookieName, sid);
  }
}
