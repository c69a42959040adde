/**
 * `route_request` of src/main.c and the read-then-route step of its accept
 * loop: a request that was read whole is dispatched by method and path to
 * one handler; one that was not gets no reply at all.
 */
module Router {
  import opened Wrappers
  import opened CString
  import opened Http
  import opened Sessions
  import opened Collaborators
  import opened Auth
  import opened Vehicles
  import Uuid

  /** The handler a request reaches. */
  datatype Route = Health | Signup | Login | Logout | Me | VehiclesList | VehiclesCreate | NotFound

  /**
   * The if-chain of `route_request`. The verb and path are the tokens the
   * request line was split into; `strncmp` against a literal of its own
   * length is a prefix test.
   */
  function RouteOf(verb: string, path: string): Route {
    if verb == "GET" && path == "/api/health" then Health
    else if HasPrefix(path, "/api/signup") then Signup
    else if HasPrefix(path, "/api/login") then Login
    else if HasPrefix(path, "/api/logout") then Logout
    else if HasPrefix(path, "/api/me") then Me
    else if path == "/api/vehicles" && verb == "GET" then VehiclesList
    else if path == "/api/vehicles" && verb == "POST" then VehiclesCreate
    else NotFound
  }

  // ---------------------------------------------------------------------
  // The routing table the chain implements

  /** How a rule's path is compared with the request's. */
  datatype PathMatch = Exact | Prefix

  /** One routing rule: an optional method, a path and how it is compared, and the handler. */
  datatype Rule = Rule(verb: Option<string>, path: string, how: PathMatch, route: Route)

  /** The routes in the order they are tried. */
  const RouteTable: seq<Rule> := [
    Rule(Some("GET"), "/api/health", Exact, Health),
    Rule(None, "/api/signup", Prefix, Signup),
    Rule(None, "/api/login", Prefix, Login),
    Rule(None, "/api/logout", Prefix, Logout),
    Rule(None, "/api/me", Prefix, Me),
    Rule(Some("GET"), "/api/vehicles", Exact, VehiclesList),
    Rule(Some("POST"), "/api/vehicles", Exact, VehiclesCreate)
  ]

  predicate RuleMatches(rule: Rule, verb: string, path: string) {
    && (rule.verb.None? || rule.verb.value == verb)
    && (if rule.how == Exact then path == rule.path else HasPrefix(path, rule.path))
  }

  /** The route of the first rule from index `i` on that matches; none matching is `NotFound`. */
  function FirstMatch(rules: seq<Rule>, i: nat, verb: string, path: string): Route
    decreases |rules| - i
  {
    if i >= |rules| then NotFound
    else if RuleMatches(rules[i], verb, path) then rules[i].route
    else FirstMatch(rules, i + 1, verb, path)
  }

  /** The if-chain is the first match in the routing table. */
  lemma RouteOfIsFirstMatch(verb: string, path: string)
    ensures RouteOf(verb, path) == FirstMatch(RouteTable, 0, verb, path)
  {
    var t := RouteTable;
    assert RuleMatches(t[0], verb, path) <==> verb == "GET" && path == "/api/health";
    assert RuleMatches(t[1], verb, path) <==> HasPrefix(path, "/api/signup");
    assert RuleMatches(t[2], verb, path) <==> HasPrefix(path, "/api/login");
    assert RuleMatches(t[3], verb, path) <==> HasPrefix(path, "/api/logout");
    assert RuleMatches(t[4], verb, path) <==> HasPrefix(path, "/api/me");
    assert RuleMatches(t[5], verb, path) <==> path == "/api/vehicles" && verb == "GET";
    assert RuleMatches(t[6], verb, path) <==> path == "/api/vehicles" && verb == "POST";
    assert FirstMatch(t, 6, verb, path) == if RuleMatches(t[6], verb, path) then VehiclesCreate else NotFound;
    assert FirstMatch(t, 5, verb, path) == if RuleMatches(t[5], verb, path) then VehiclesList else FirstMatch(t, 6, verb, path);
    assert FirstMatch(t, 4, verb, path) == if RuleMatches(t[4], verb, path) then Me else FirstMatch(t, 5, verb, path);
    assert FirstMatch(t, 3, verb, path) == if RuleMatches(t[3], verb, path) then Logout else FirstMatch(t, 4, verb, path);
    assert FirstMatch(t, 2, verb, path) == if RuleMatches(t[2], verb, path) then Login else FirstMatch(t, 3, verb, path);
    assert FirstMatch(t, 1, verb, path) == if RuleMatches(t[1], verb, path) then Signup else FirstMatch(t, 2, verb, path);
    assert FirstMatch(t, 0, verb, path) == if RuleMatches(t[0], verb, path) then Health else FirstMatch(t, 1, verb, path);
  }

  // ---------------------------------------------------------------------
  // What the chain means for particular requests

  /** Every path that starts with an auth prefix reaches that handler, whatever the method and whatever follows. */
  lemma AuthRoutesArePrefixes(verb: string, suffix: string)
    ensures RouteOf(verb, "/api/signup" + suffix) == Signup
    ensures RouteOf(verb, "/api/login" + suffix) == Login
    ensures RouteOf(verb, "/api/logout" + suffix) == Logout
    ensures RouteOf(verb, "/api/me" + suffix) == Me
  {
    assert ("/api/signup" + suffix)[..11] == "/api/signup";
    assert ("/api/login" + suffix)[..10] == "/api/login";
    assert ("/api/logout" + suffix)[..11] == "/api/logout";
    assert ("/api/me" + suffix)[..7] == "/api/me";
    assert ("/api/signup" + suffix)[5] == 's';
    assert ("/api/login" + suffix)[5] == 'l' && ("/api/login" + suffix)[8] == 'i';
    assert ("/api/logout" + suffix)[5] == 'l' && ("/api/logout" + suffix)[8] == 'o';
    assert ("/api/me" + suffix)[5] == 'm';
  }

  /**
   * The health check and the vehicle routes answer only their own
   * methods; any other method on those paths falls through to 404, so
   * the router itself never answers 405.
   */
  lemma ExactRoutesNeedTheirMethod(verb: string)
    ensures RouteOf(verb, "/api/health") == if verb == "GET" then Health else NotFound
    ensures RouteOf(verb, "/api/vehicles") ==
      if verb == "GET" then VehiclesList else if verb == "POST" then VehiclesCreate else NotFound
  {
    assert "/api/health"[5] == 'h' && "/api/vehicles"[5] == 'v';
  }

  /** Every handler lives under `/api/`: a path outside it reaches none. */
  lemma HandlersUnderApi(verb: string, path: string)
    ensures RouteOf(verb, path) != NotFound ==> HasPrefix(path, "/api/")
  {
    match RouteOf(verb, path)
    case Signup => assert path[..5] == path[..11][..5];
    case Login => assert path[..5] == path[..10][..5];
    case Logout => assert path[..5] == path[..11][..5];
    case Me => assert path[..5] == path[..7][..5];
    case _ =>
  }

  // ---------------------------------------------------------------------
  // Dispatch

  /** The environment the server reads: APP_ENV and the cookie settings. */
  datatype Environment = Environment(appEnv: Option<string>, cookie: CookieEnv)

  /** `char body[256]`. */
  const HealthBodyCap := 255

  /** The health check's body: the request id and APP_ENV (`dev` when unset), cut to the buffer. */
  function HealthBody(requestId: string, appEnv: Option<string>): (r: string)
    ensures |r| <= HealthBodyCap
  {
    var env := if appEnv.Some? then CStr(appEnv.value) else "dev";
    Truncate("{\"status\":\"ok\",\"request_id\":\"" + CStr(requestId) + "\",\"env\":\"" + env + "\"}\n", HealthBodyCap)
  }

  /** With a canonical request id, an APP_ENV of at most 178 characters leaves the body whole, newline included. */
  lemma HealthBodyWhole(requestId: string, appEnv: Option<string>)
    requires Uuid.IsCanonical(requestId)
    requires appEnv.Some? ==> |CStr(appEnv.value)| <= 178
    ensures var env := if appEnv.Some? then CStr(appEnv.value) else "dev";
      HealthBody(requestId, appEnv) == "{\"status\":\"ok\",\"request_id\":\"" + requestId + "\",\"env\":\"" + env + "\"}\n"
  {
    assert '\0' !in requestId by {
      forall i | 0 <= i < 36 ensures requestId[i] != '\0' {
        assert Uuid.IsDashPosition(i) || Uuid.IsLowerHex(requestId[i]);
      }
    }
    CStrNoNul(requestId);
  }

  /** What one routed request does to the session store and what it answers. */
  function ServeOutcome(st: StoreState, b: Backend, env: Environment, requestId: string, req: Request, random: seq<bv8>): (StoreState, Reply)
    requires |random| == 16
  {
    match RouteOf(req.verb, req.path)
    case Health => (st, JsonReply(200, HealthBody(requestId, env.appEnv)))
    case Signup => SignupOutcome(st, b, env.cookie, req, random)
    case Login => LoginOutcome(st, b, env.cookie, req, random)
    case Logout => LogoutOutcome(st, env.cookie, req)
    case Me => (st, MeReply(st, req))
    case VehiclesList => (st, VehiclesListReply(st, b, req))
    case VehiclesCreate => (st, VehiclesCreateReply(st, b, req))
    case NotFound => (st, JsonReply(404, NotFoundBody))
  }

  /** `route_request`: the handler of the request's route writes the reply; a request no rule matches gets `http_send_404`. */
  method RouteRequest(sock: Socket, store: SessionStore, b: Backend, env: Environment, requestId: string, req: Request, random: seq<bv8>)
    requires |random| == 16
    modifies sock, store
    ensures store.State() == ServeOutcome(old(store.State()), b, env, requestId, req, random).0
    ensures sock.out == old(sock.out) + Output(ServeOutcome(old(store.State()), b, env, requestId, req, random).1)
  {
    match RouteOf(req.verb, req.path)
    case Health => SendReply(sock, JsonReply(200, HealthBody(requestId, env.appEnv)));
    case Signup => HandleSignup(sock, store, b, env.cookie, req, random);
    case Login => HandleLogin(sock, store, b, env.cookie, req, random);
    case Logout => HandleLogout(sock, store, env.cookie, req);
    case Me => HandleMe(sock, store, req);
    case VehiclesList => HandleVehiclesList(sock, store, b, req);
    case VehiclesCreate => HandleVehiclesCreate(sock, store, b, req);
    case NotFound => SendReply(sock, JsonReply(404, NotFoundBody));
  }

  /**
   * One pass of the accept loop after `accept`: read the request from the
   * chunks the peer sends and route it only when the read succeeded. The
   * request id and the session id come from separate random octets.
   */
  method ServeConnection(sock: Socket, store: SessionStore, b: Backend, env: Environment,
                         input: seq<string>, allocOk: bool, idRandom: seq<bv8>, random: seq<bv8>)
    requires |idRandom| == 16 && |random| == 16
    modifies sock, store
    ensures ParseRequest(input, allocOk).Failed? ==> sock.out == old(sock.out) && store.State() == old(store.State())
    ensures ParseRequest(input, allocOk).Read? ==>
      var (st', r) := ServeOutcome(old(store.State()), b, env, Uuid.Uuid4(idRandom), ParseRequest(input, allocOk).request, random);
      store.State() == st' && sock.out == old(sock.out) + Output(r)
  {
    var requestId := Uuid.Uuid4(idRandom);
    var rc, req := ReadRequest(input, allocOk);
    if rc == 0 {
      RouteRequest(sock, store, b, env, requestId, req, random);
    }
  }

  // ---------------------------------------------------------------------
  // Properties of dispatch

  /** Only signup, login and logout change the session store; every other route reads it at most. */
  lemma OnlyAuthRoutesWrite(st: StoreState, b: Backend, env: Environment, requestId: string, req: Request, random: seq<bv8>)
    requires |random| == 16
    requires RouteOf(req.verb, req.path) !in {Signup, Login, Logout}
    ensures ServeOutcome(st, b, env, requestId, req, random).0 == st
  {
  }

  /** A 404 comes from a request no route matched, and from no other. */
  lemma NotFoundOnlyUnrouted(st: StoreState, b: Backend, env: Environment, requestId: string, req: Request, random: seq<bv8>)
    requires |random| == 16
    ensures ServeOutcome(st, b, env, requestId, req, random).1.code == 404 <==> RouteOf(req.verb, req.path) == NotFound
  {
    match RouteOf(req.verb, req.path)
    case Signup => SignupOutcomes(st, b, env.cookie, req, random);
    case Login => LoginOutcomes(st, b, env.cookie, req, random);
    case Me => MeAuthorized(st, req);
    case VehiclesList => ListSucceeds(st, b, req);
    case VehiclesCreate => CreateSucceeds(st, b, req);
    case _ =>
  }

  /**
   * A 405 comes only from an auth handler reached with a method it does
   * not serve: GET for `/api/me`, POST for the others. The exact routes
   * match their method before dispatch and never answer 405.
   */
  lemma MethodNotAllowedOnlyFromAuth(st: StoreState, b: Backend, env: Environment, requestId: string, req: Request, random: seq<bv8>)
    requires |random| == 16
    ensures ServeOutcome(st, b, env, requestId, req, random).1.code == 405 <==>
      || (RouteOf(req.verb, req.path) in {Signup, Login, Logout} && req.verb != "POST")
      || (RouteOf(req.verb, req.path) == Me && req.verb != "GET")
  {
    var o := ServeOutcome(st, b, env, requestId, req, random);
    match RouteOf(req.verb, req.path)
    case Health =>
    case Signup =>
      assert o == SignupOutcome(st, b, env.cookie, req, random);
      SignupOutcomes(st, b, env.cookie, req, random);
    case Login =>
      assert o == LoginOutcome(st, b, env.cookie, req, random);
      LoginOutcomes(st, b, env.cookie, req, random);
    case Logout =>
      assert o == LogoutOutcome(st, env.cookie, req);
    case Me =>
      assert o.1 == MeReply(st, req);
      MeAuthorized(st, req);
    case VehiclesList =>
      assert o.1 == VehiclesListReply(st, b, req);
      ListSucceeds(st, b, req);
    case VehiclesCreate =>
      assert o.1 == VehiclesCreateReply(st, b, req);
      CreateSucceeds(st, b, req);
    case NotFound =>
  }
}
