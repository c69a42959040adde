# Car-Part-Connection API core in Dafny

This project models the core of the Car-Part-Connection backend, a small C web
server. The core has three parts:

- **The hand-rolled HTTP/1.1 layer** (`src/http.c`). It reads one request with
  `recv`: the request line, a scan for three headers, and a body framed by
  Content-Length across later reads. It writes JSON responses.
- **The cookie/session protocol.** Signup and login (`src/auth.c`) issue a
  session id made by `uuid4` (`src/util.c`) and store it in Redis
  (`src/sessions.c`). `/api/me` and the vehicle endpoints (`src/vehicles.c`)
  read the id back from the `Cookie` header, and logout deletes it.
- **The router** (`route_request` in `src/main.c`).

Each module follows one source file:

| module | file | models |
|---|---|---|
| `Wrappers` | `wrappers.dfy` | the `Option` type the other modules share |
| `CString` | `cstring.dfy` | the C library calls on strings the source relies on: `strchr`, `strstr`, `strncasecmp`, `%.*s`, `isspace`, `sscanf` field widths |
| `Numeric` | `numeric.dfy` | the number readers the source relies on: `strtoul`, `strtol`, `atoi`, and the `(int)` cast |
| `Uuid` | `uuid.dfy` | `uuid4` with its random octets given |
| `Http` | `http.dfy` | `http_read_request` (imperative, proved against `ParseRequest`), `send_common` and its wrappers |
| `Sessions` | `sessions.dfy` | the session store as a class over the static state of `sessions.c`, and pure specifications of its operations |
| `Collaborators` | `collaborators.dfy` | the JSON accessors; the JSON reader, password hashing and the database as oracles |
| `Auth` | `auth.dfy` | cookie lines, cookie read-back, and the four auth handlers |
| `Vehicles` | `vehicles.dfy` | the two vehicle handlers |
| `Router` | `router.dfy` | `route_request` and the read-then-route step of the accept loop |
| `Protocol` | `protocol.dfy` | properties across several requests |

Every handler has a pure outcome: the new store state and a `Reply`. A
`Reply` is an optional line sent first (the `Set-Cookie` line) plus one JSON
response. Each handler also has a method that writes to a `Socket` and
updates the `SessionStore`. Its `ensures` ties the bytes written and the new
store state to that outcome.

In four places the code behaves differently from what HTTP or its own
comments lead a reader to expect; the model follows the code:

- A known path with the wrong method is not always answered 405. `GET`-only
  `/api/health` and `/api/vehicles` with a method other than GET or POST fall
  through to 404. Only the auth handlers answer 405 (`Router.ExactRoutesNeedTheirMethod`).
- The `Set-Cookie` line goes out before the status line, not after it.
  The comment at src/auth.c:94 places it before the body only
  (`Auth.SessionCookieComesFirst`).
- For a repeated header, the last occurrence wins, not the first
  (`Http.LastOccurrenceWins`).
- The header line just before the blank line is never scanned
  (`Http.FinalContentLengthIgnored`).

## Model

| member | source | states |
|---|---|---|
| CString.UpToSpec | src/auth.c:55 | `strchr` cut: a prefix free of the character that stops exactly at its first occurrence |
| CString.CStrOfPrefix | src/sessions.c:58 | `%.*s` with precision n stops at a NUL or after n characters, whichever comes first |
| CString.SkipSpaceSpec | src/http.c:65 | the blanks `sscanf` skips: the rest starts with a non-blank and the skipped part is all blanks |
| CString.FindFirst | src/http.c:48-55 | a found offset is the first occurrence; no result means no occurrence anywhere |
| CString.FindAfter | src/auth.c:52 | a needle placed after text that does not contain it is found right there |
| Numeric.Strtoul | src/http.c:86 | `strtoul`: at most 2^64-1; no digits reads as 0; a numeral above 2^64-1 saturates at 2^64-1; an unsigned numeral in range reads as itself; a minus sign negates modulo 2^64 |
| Numeric.StrtoulOfDecimal | src/http.c:86 | leading blanks, then a decimal numeral, then any non-digit: `strtoul` reads the number back |
| Numeric.StrtoulNonNumeric | src/http.c:86 | a value with no leading digits gives Content-Length 0 |
| Numeric.StrtoulMinusOne | src/http.c:86 | `-1`, after any blanks, reads as 2^64-1 |
| Numeric.Strtol | src/sessions.c:31 | `strtol`: within `long` range; no digits reads as 0; a numeral in range reads as itself, signed; one beyond saturates at LONG_MIN or LONG_MAX |
| Numeric.Atoi | src/sessions.c:31 | `atoi` always gives a value within `int` range |
| Numeric.AtoiOfDecimal | src/sessions.c:31 | a decimal numeral within `int` range reads back as itself |
| Numeric.Wrap32 | src/json.c:19 | the `(int)` cast keeps the value modulo 2^32 in int range, and leaves an in-range value unchanged |
| Uuid.FixBits | src/util.c:13 | version nibble 4 and variant bits 10; every other bit stays as drawn |
| Uuid.HexDigit | src/util.c:14-15 | a lowercase hex digit that reads back as its nibble |
| Uuid.UnhexHex | src/util.c:14-15 | reading `%02x` output back gives the octets |
| Uuid.Render | src/util.c:14-15 | 36 characters, dashes at 8, 13, 18 and 23, lowercase hex elsewhere |
| Uuid.Uuid4 | src/util.c:8-16 | the session id and request id are in canonical form |
| Uuid.Uuid4Marks | src/util.c:13-15 | the version digit is `4` and the variant digit is one of `8`, `9`, `a`, `b` |
| Uuid.RenderRoundTrip | src/util.c:14-15 | the canonical text reads back as the 16 octets it came from |
| Uuid.Uuid4RoundTrip | src/util.c:13-15 | the id loses nothing but the six fixed bits |
| Http.StatusCode | src/http.c:13-27 | the code a status line shows: known codes as themselves, any other as 200 |
| Http.StatusLine | src/http.c:13-27 | the line `status_line` returns for a code, built from `StatusCode`; read back by `Http.StatusCodeReadBack` |
| Http.StatusCodeReadBack | src/http.c:13-27 | a status line starts `HTTP/1.1 ` and its digits read back as `StatusCode(code)` |
| Http.StrnStr | src/http.c:48-55 | `strnstr_local` returns the first match within `len`; an empty needle matches at 0 |
| Http.Recv | src/http.c:60 | one `recv` returns at most `max` octets, loses none, and returns nothing only at end of stream |
| Http.TakeToken | src/http.c:65 | a `%Ns` field: at most N non-blanks, stopping only at a blank, the width or the end |
| Http.RequestLine | src/http.c:65 | both tokens are non-empty and blank-free, at most 7 and 1023 characters |
| Http.TakeTokenWhole | src/http.c:65 | a token that ends at a blank or fills the width is taken whole |
| Http.RequestLineOf | src/http.c:65 | `<method> <path>` is parsed back as exactly that method and path |
| Http.LongMethodSpillsIntoPath | src/http.c:65 | a method longer than 7 characters is cut, and its remainder becomes the path |
| Http.ScanLine | src/http.c:78-91 | one pass of the header loop: each field the line names overwrites its value; properties in `Http.ScanLineField` and `Http.FieldsExclusive` |
| Http.ScanHeaders | src/http.c:72-93 | the header loop over a header block, line by line; properties in `Http.LastOccurrenceWins` and `Http.AbsentFieldKeepsDefault`, loop in `Http.ScanHeaderBlock` |
| Http.IsFieldLineIgnoresCase | src/http.c:78-88 | a header line matches the length test and `strncasecmp` on the name |
| Http.FieldsExclusive | src/http.c:78-91 | no line counts as a header line for two different fields |
| Http.ScanLineField | src/http.c:78-91 | a line changes the field it names and no other |
| Http.LastOccurrenceWins | src/http.c:74-93 | for a repeated header, the last scanned line decides the value |
| Http.AbsentFieldKeepsDefault | src/http.c:74-93 | a header no line names keeps its zeroed default |
| Http.UnterminatedLastLineIgnored | src/http.c:74-76 | text after the last CRLF of the header block is never scanned |
| Http.FinalContentLengthIgnored | src/http.c:68-93 | a Content-Length on the last header line leaves the length at 0 |
| Http.ScanNextLine | src/http.c:75-92 | one loop round consumes one CRLF-ended line and advances, or stops when no CRLF is left |
| Http.ScanHeaderBlock | src/http.c:72-93 | the header loop computes `ScanHeaders` of the header block |
| Http.ReadBody | src/http.c:95-121 | the body is the first Content-Length octets after the blank line; it fails on a Content-Length of 2^64-1 (corrected, see Findings), a failed `malloc` or a short peer |
| Http.ParseRequest | src/http.c:57-123 | what the reader yields from the chunks the peer sends, with the overflow guard of the Findings; properties in `Http.BodyFraming`, `Http.ReadFailures`, `Http.BodyFitsAllocation` |
| Http.ReadRequest | src/http.c:57-123 | returns 0 or -1; it returns 0 exactly when `ParseRequest` succeeds, with that request |
| Http.AllocSize | src/http.c:100 | `malloc(content_length + 1)` on a `size_t`: 0 exactly for 2^64-1, otherwise one more than the length |
| Http.MinusOneLengthWraps | src/http.c:86-100 | as written: `Content-Length: -1` is a Content-Length line, stores 2^64-1, and the block asked for is 0 octets |
| Http.LengthOverflowRefused | src/http.c:95-100 | corrected: a header block that sets Content-Length 2^64-1 is refused before any allocation |
| Http.BodyFitsAllocation | src/http.c:100-117 | corrected: on success the length is below 2^64-1 and the block holds the body plus its NUL |
| Http.BodyFraming | src/http.c:95-121 | on success the body is absent iff Content-Length is 0, and otherwise is exactly that many octets |
| Http.ReadFailures | src/http.c:60-106 | a closed peer, a bad request line or a missing blank line in the first read each fail; past the headers, a failed `malloc` and a body the peer sends short fail too |
| Http.SplitIndependence | src/http.c:96-110 | after the first read, how the peer splits the rest into chunks does not change the request |
| Http.FreeRequest | src/http.c:125-128 | the body is released and every field zeroed |
| Http.Socket.Send | src/http.c:137 | a send appends its data to what the connection carried |
| Http.Response | src/http.c:130-139 | every octet of one response: status line, headers with the body's `strlen` as Content-Length, then the body; written by `Http.SendCommon` |
| Http.SendCommon | src/http.c:130-139 | the header block, then the body unless empty |
| Http.SendJson | src/http.c:141-143 | a JSON response with the body read as a C string |
| Http.SendReply | src/auth.c:95-96 | a handler's preamble line by itself, then its JSON response |
| Http.Send405 | src/http.c:145-147 | the fixed 405 response |
| Http.Send404 | src/http.c:149-151 | the fixed 404 response |
| Sessions.KeyInjective | src/sessions.c:43 | different session ids are stored under different keys |
| Sessions.GetenvOr | src/sessions.c:14 | an unset or empty variable gives the default |
| Sessions.EffectiveTtl | src/sessions.c:43 | a positive argument is the expiry, otherwise the configured TTL |
| Sessions.InitSpec | src/sessions.c:16-33 | returns 0 or -1; the connection flag follows the connect; the stored sessions are untouched |
| Sessions.CreateSpec | src/sessions.c:40-50 | SETEX of the user id under the session key, refused without a connection or with a non-positive expiry; properties in `Sessions.CreateEffect`, `Sessions.CreateThenGet`, `Sessions.CreateKeepsOthers` |
| Sessions.GetSpec | src/sessions.c:52-63 | a hit is at most 36 characters and NUL-free |
| Sessions.DeleteSpec | src/sessions.c:65-71 | DEL of the session key, success whenever connected; properties in `Sessions.DeleteThenGetMisses`, `Sessions.DeleteIdempotent`, `Sessions.DeleteKeepsOthers` |
| Sessions.SessionStore.constructor | src/sessions.c:10-12 | no connection, cookie name `cpc_session`, TTL 604800 |
| Sessions.SessionStore.Init | src/sessions.c:16-33 | follows `InitSpec` |
| Sessions.SessionStore.Close | src/sessions.c:35-38 | drops the connection and nothing else |
| Sessions.SessionStore.Create | src/sessions.c:40-50 | follows `CreateSpec` with the id `uuid4` makes; returns the id only on success |
| Sessions.SessionStore.GetUser | src/sessions.c:52-63 | follows `GetSpec` |
| Sessions.SessionStore.Delete | src/sessions.c:65-71 | follows `DeleteSpec` |
| Sessions.InitSettings | src/sessions.c:27-31 | a successful init takes a non-empty cookie name (cut to 63) and TTL; otherwise it keeps the current ones |
| Sessions.Disconnected | src/sessions.c:41 | without a connection, create, get and delete all fail and change nothing |
| Sessions.CreateEffect | src/sessions.c:40-50 | create succeeds iff connected with a positive expiry; it adds exactly the new key, keeps every other entry and leaves the connection and settings as they were |
| Sessions.CreateThenGet | src/sessions.c:43-58 | right after a create, get returns the user id cut at a NUL and to 36; an empty id misses |
| Sessions.CreateKeepsOthers | src/sessions.c:43 | creating one session leaves every other id's lookup as it was |
| Sessions.DeleteThenGetMisses | src/sessions.c:65-71 | after a delete the id misses; delete succeeds iff connected |
| Sessions.DeleteIdempotent | src/sessions.c:65-71 | deleting twice is deleting once |
| Sessions.DeleteKeepsOthers | src/sessions.c:67 | deleting one session leaves every other id's lookup as it was |
| Collaborators.GetString | src/json.c:10-14 | a result exactly when the member is present and a string |
| Collaborators.GetInt | src/json.c:16-21 | a result exactly when the member is an integer, within `int` range |
| Collaborators.GetIntValue | src/json.c:19 | an in-range integer is read unchanged, a wider one modulo 2^32 |
| Auth.SecureFlag | src/auth.c:14-18 | `cookie_secure_flag` over the variable's value; equal to the three `strcasecmp` tests by `Auth.SecureFlagIsStrcasecmp` |
| Auth.SameSite | src/auth.c:19-23 | the variable as set, even when empty, and `Lax` when unset |
| Auth.SecureFlagIsStrcasecmp | src/auth.c:14-18 | the Secure flag is set iff the variable is `1`, `true` or `yes` in any letter case |
| Auth.SetCookieLine | src/auth.c:26-35 | the `Set-Cookie` line with the session id and its attributes; its length in `Auth.CookieLinesFit`, its read-back in `Auth.CookieRoundTrip` |
| Auth.ClearCookieLine | src/auth.c:37-46 | the `Set-Cookie` line with value `deleted` and `Max-Age=0` |
| Auth.CookieLinesFit | src/auth.c:26-46 | the cookie line fits its 512-octet buffer iff name, SameSite and Secure take at most 431 characters; the clearing line is 18 shorter |
| Auth.SetCookieHeaderPrefix | src/auth.c:32-33 | both cookie lines start with `Set-Cookie: ` |
| Auth.CookieValue | src/auth.c:50-57 | no value exactly when `<name>=` occurs nowhere in the header's C string; a value read is at most the cap |
| Auth.ParseCookieForSession | src/auth.c:48-59 | no session id exactly when the header is empty or holds no `<name>=`; otherwise the value after the first `<name>=`, at most 127 characters |
| Auth.CookieValueAfter | src/auth.c:50-57 | the value after the first `<name>=` runs to the next `;`, even when the match does not start a cookie pair |
| Auth.CookieRoundTrip | src/auth.c:26-59 | the id sent in `Set-Cookie` is read back from the returned header, cut to the reader's cap |
| Auth.StartSession | src/auth.c:89-96 | the auto-login step: create the session, then 500 or the cookie line and `code`; shape in `Auth.StartSessionShape` |
| Auth.SignupOutcome | src/auth.c:61-97 | `handle_signup`'s reply and new store, checks in source order; properties in `Auth.SignupOutcomes`, `Auth.SignupSucceeds`, `Auth.SignupShortPassword` |
| Auth.LoginOutcome | src/auth.c:99-126 | `handle_login`'s reply and new store; properties in `Auth.LoginOutcomes`, `Auth.LoginSucceeds`, `Auth.LoginFailuresIdentical` |
| Auth.LogoutOutcome | src/auth.c:128-137 | `handle_logout`'s reply and new store; properties in `Auth.LogoutRevokes`, `Auth.LogoutIdempotent`, `Auth.LogoutReplyIndependent` |
| Auth.MeReply | src/auth.c:139-149 | `handle_me`'s reply; properties in `Auth.MeAuthorized` |
| Auth.StartSessionAndReply | src/auth.c:89-96 | follows `StartSession`: the store gains the session and the cookie line goes first |
| Auth.HandleSignup | src/auth.c:61-97 | writes the `SignupOutcome` reply and moves the store to its state |
| Auth.HandleLogin | src/auth.c:99-126 | writes the `LoginOutcome` reply and moves the store to its state |
| Auth.HandleLogout | src/auth.c:128-137 | writes the `LogoutOutcome` reply and moves the store to its state |
| Auth.HandleMe | src/auth.c:139-149 | writes `MeReply` and leaves the store alone |
| Auth.StartSessionShape | src/auth.c:89-96 | either a 500 with no cookie and no change, or `code` with a cookie line |
| Auth.SignupOutcomes | src/auth.c:61-97 | codes 201, 400, 405, 409 or 500; 405 iff not POST; a cookie iff 201; the store changes only on 201 |
| Auth.SignupSucceeds | src/auth.c:61-97 | 201 iff POST, email and password of at least 8, hash, new user, and the store accepts the session |
| Auth.SignupShortPassword | src/auth.c:69-72 | a password under 8 characters gives 400 `invalid_input`, whatever hashing and the database would do |
| Auth.LoginOutcomes | src/auth.c:99-126 | codes 200, 400, 401, 405 or 500; 405 iff not POST; a cookie iff 200; the store changes only on 200 |
| Auth.LoginSucceeds | src/auth.c:99-126 | 200 iff the user exists, the password verifies and the store accepts the session; length is not checked |
| Auth.LoginFailuresIdentical | src/auth.c:110-117 | an unknown email and a wrong password give the same reply and no change |
| Auth.SessionCookieComesFirst | src/auth.c:94-96 | a success output starts with `Set-Cookie: `, not with the status line |
| Auth.LogoutReplyIndependent | src/auth.c:128-137 | logout's reply does not depend on which sessions exist |
| Auth.LogoutIdempotent | src/auth.c:128-137 | logging out twice gives the same store and the same reply as once |
| Auth.LogoutRevokes | src/auth.c:130-136 | a POST always gets 200 with the clearing line, and the named session is gone |
| Auth.MeAuthorized | src/auth.c:139-149 | 200 iff GET, the cookie parses and the session exists, with that user id; otherwise 401 or 405 |
| Vehicles.UserFromCookie | src/vehicles.c:11-23 | `get_user_from_cookie`: the cookie value cut to 120, looked up in the store; properties in `Vehicles.ReadersAgreeOnIssuedIds`, `Vehicles.CookieNameAbsentIsAnonymous` and `Vehicles.EmptyCookieIsAnonymous` |
| Vehicles.VehiclesListReply | src/vehicles.c:25-34 | `handle_vehicles_list`'s reply; properties in `Vehicles.ListSucceeds` |
| Vehicles.VehiclesCreateReply | src/vehicles.c:36-56 | `handle_vehicles_create`'s reply; properties in `Vehicles.CreateSucceeds` and `Vehicles.AuthenticateFirst` |
| Vehicles.CookieNameAbsentIsAnonymous | src/vehicles.c:11-16 | the copied header yields no value exactly when it holds no `<name>=`, and then nobody is authenticated |
| Vehicles.EmptyCookieIsAnonymous | src/vehicles.c:11-16 | an empty `Cookie` header authenticates nobody |
| Vehicles.VehicleInput | src/vehicles.c:44-49 | fields iff `year` is an integer and `make` and `model` are strings; `year` is the `(int)` cast of the JSON integer, `make` and `model` their texts; a missing or non-string `nickname` is empty |
| Vehicles.HandleVehiclesList | src/vehicles.c:25-34 | writes `VehiclesListReply` |
| Vehicles.HandleVehiclesCreate | src/vehicles.c:36-56 | writes `VehiclesCreateReply` |
| Vehicles.ListSucceeds | src/vehicles.c:25-34 | codes 200, 401, 405 or 500 with no cookie; 200 iff GET, signed in and listed, with the database's JSON |
| Vehicles.CreateSucceeds | src/vehicles.c:36-56 | codes 201, 400, 401, 405 or 500; 201 iff the insert for the session's user succeeds |
| Vehicles.AuthenticateFirst | src/vehicles.c:38-43 | without a session both endpoints answer alike, whatever the backend and the body |
| Vehicles.SessionIdCapsDiffer | src/vehicles.c:20 | `/api/me` keeps 127 characters of the cookie value, the vehicle endpoints 120 |
| Vehicles.ReadersAgreeOnIssuedIds | src/vehicles.c:11-23 | for ids of at most 120 characters, both readers find the same session |
| Router.RouteOf | src/main.c:22-42 | the if-chain of `route_request`; checked against a routing table by `Router.RouteOfIsFirstMatch` |
| Router.RouteOfIsFirstMatch | src/main.c:22-42 | the if-chain is the first match in an ordered table of exact and prefix rules |
| Router.AuthRoutesArePrefixes | src/main.c:30-33 | any path starting with an auth prefix reaches that handler, for any method |
| Router.ExactRoutesNeedTheirMethod | src/main.c:23-39 | health and vehicles route only their methods; any other method is 404 |
| Router.HandlersUnderApi | src/main.c:22-42 | every routed path starts with `/api/` |
| Router.HealthBody | src/main.c:24-26 | the health body fits its 256-octet buffer |
| Router.HealthBodyWhole | src/main.c:24-26 | with a canonical request id and APP_ENV of at most 178 characters, the body is whole |
| Router.ServeOutcome | src/main.c:22-42 | the reply and new store of one routed request; properties in `Router.NotFoundOnlyUnrouted`, `Router.MethodNotAllowedOnlyFromAuth`, `Router.OnlyAuthRoutesWrite` |
| Router.RouteRequest | src/main.c:22-42 | writes the `ServeOutcome` reply and moves the store to its state |
| Router.ServeConnection | src/main.c:67-73 | a failed read writes nothing and changes nothing; a good read is routed |
| Router.OnlyAuthRoutesWrite | src/main.c:22-42 | only signup, login and logout change the session store |
| Router.NotFoundOnlyUnrouted | src/main.c:41 | a 404 is answered iff no route matched |
| Router.MethodNotAllowedOnlyFromAuth | src/main.c:30-41 | a 405 comes only from an auth handler reached with the wrong method |
| Protocol.CanonicalIdIsCookieSafe | src/util.c:14-15 | an issued id has no NUL and no `;`, and fits both readers' caps |
| Protocol.IssuedCookieNamesSession | src/auth.c:26-59 | the cookie sent back names the issued session for `/api/me` and for the vehicle endpoints |
| Protocol.LoginCreatesSession | src/auth.c:120-125 | a successful login stores the user under the id it hands out |
| Protocol.LoginThenMe | src/auth.c:99-149 | after login, `/api/me` with the issued cookie answers 200 with the user id |
| Protocol.LoginThenListVehicles | src/vehicles.c:25-34 | after login, the vehicle listing answers for the logged-in user |
| Protocol.LogoutThenMe | src/auth.c:128-149 | after logout, `/api/me` with the same cookie answers 401 |
| Protocol.SessionsAreIndependent | src/sessions.c:40-71 | a request touches no session other than the one it creates or ends |

## Left out

- Sockets, `accept`, `listen` and `close` are left out. A connection is the chunks the peer sends (`seq<string>`) plus a `Socket` that records every octet sent. The accept loop in `main` is modelled only as its read-then-route step.
- Randomness is a parameter: `uuid4` takes its 16 octets as input. The `rand()` fallback when `/dev/urandom` cannot be opened is not modelled.
- Environment variables (APP_ENV, SESSION_COOKIE_*, REDIS_*, SESSION_TTL_SECONDS) are parameters. `getenv_int_or` and PORT belong to `main` and are not modelled.
- The JSON reader, libsodium hashing and verification, and every PostgreSQL query in `src/db.c` are oracles in `Collaborators.Backend`. The database's own state is not modelled.
- JSON strings are treated as C strings without embedded NUL characters. `strlen(password)` is taken as the string's length.
- Redis is a map from key to value and expiry. Expiry is not modelled as time passing, so a session never expires in the model. SETEX with a non-positive expiry fails.
- Sessions.CreateSpec, Sessions.GetSpec, Sessions.DeleteSpec: on a live connection every command is assumed to get the reply the code expects (SETEX answers OK, GET the stored string or nil, DEL an integer). A NULL reply and an error reply are not modelled. In the code such a reply makes create and get fail; for DEL an error reply reports success and a NULL reply reports failure, and either way the session survives, so `Auth.LogoutRevokes` and `Protocol.LogoutThenMe` hold only under this assumption.
- `redisConnect`'s host and port are folded into one success flag. `sessions_init` does not close an earlier connection, and the leak is not modelled.
- Auth.SetCookieLine: when name, SameSite and Secure together take more than 431 characters, `snprintf` cuts the line at 511 octets. The source still sends the untruncated length, reading past its buffer. The model sends the whole line instead. `Auth.CookieLinesFit` states exactly when that happens.
- Http.SendCommon: the 256-octet header buffer is never exceeded for the status lines and content type the handlers use, so that truncation is not modelled.
- Http.StatusLine: the status line is built from a table of reason phrases, not written out as ten literal strings.
- Short sends are not modelled: every `send` sends everything it is given.
- Vehicles.UserFromCookie: the copy into `char cookie[2048]` is modelled as a cut at 2047 characters, not as a second buffer.
- `handle_vehicles_create` and `handle_vehicles_list` return the database's JSON text unchanged. The escaping of that text is `src/db.c`'s business, and `src/db.c` is not part of this model.
- `json_decref`, `free` and other memory management are left out. Only a failed `malloc` of the body is modelled, as `allocOk`.
- Http.ReadRequest, Http.ReadBody, Http.ParseRequest: these model the reader with the overflow guard of the finding below. The heap overrun of the code as written is captured by `Http.AllocSize` and `Http.MinusOneLengthWraps` as a size computation, not as memory.

## Findings

| source | as written | input that shows it | evidently intended | confidence | as-written member | corrected member |
|---|---|---|---|---|---|---|
| src/http.c:86-117 | `strtoul` turns a Content-Length of `-1` (or any numeral of 2^64-1 and more) into 2^64-1; `malloc(content_length + 1)` then wraps to `malloc(0)`, and the `memcpy` of the octets already read after the headers and the `recv` loop that reads the rest write past the block | a request whose headers hold `Content-Length: -1` followed by another header line, followed by body octets | a length whose block size would wrap is refused; on success the block holds the body and its NUL (`Http.BodyFitsAllocation`, `Http.LengthOverflowRefused`) | high; not executed | Http.MinusOneLengthWraps | Http.ParseRequest |
