/**
 * What the handlers use but do not implement: the JSON reader of src/json.c
 * (over jansson), password hashing (libsodium) and the PostgreSQL queries of
 * src/db.c. JSON documents are modelled as the objects they decode to; the
 * rest are oracles that either give a result or fail.
 */
module Collaborators {
  import opened Wrappers
  import opened Numeric

  /** A JSON member value, as far as the handlers tell values apart. */
  datatype Json = JString(text: string) | JInteger(value: int) | JOther

  /** A decoded JSON object: member name to value. */
  type JsonObject = map<string, Json>

  /** `json_get_string`: the member when it is present and a string. */
  function GetString(obj: JsonObject, key: string): (r: Option<string>)
    ensures r.Some? <==> key in obj && obj[key].JString?
    ensures r.Some? ==> obj[key] == JString(r.value)
  {
    if key in obj && obj[key].JString? then Some(obj[key].text) else None
  }

  /**
   * `json_get_int`: the member when it is present and an integer,
   * converted with `(int)` from jansson's 64-bit integer.
   */
  function GetInt(obj: JsonObject, key: string): (r: Option<int>)
    ensures r.Some? <==> key in obj && obj[key].JInteger?
    ensures r.Some? ==> -IntMax - 1 <= r.value <= IntMax
  {
    if key in obj && obj[key].JInteger? then Some(Wrap32(obj[key].value)) else None
  }

  /** An integer that fits an `int` is read unchanged; a wider one keeps its low 32 bits. */
  lemma GetIntValue(obj: JsonObject, key: string)
    requires key in obj && obj[key].JInteger?
    ensures -IntMax - 1 <= obj[key].value <= IntMax ==> GetInt(obj, key) == Some(obj[key].value)
    ensures (GetInt(obj, key).value - obj[key].value) % 0x1_0000_0000 == 0
  {
  }

  /** The outcomes of the calls the handlers make into code outside the model. */
  datatype Backend = Backend(
    // `json_parse_strict`: the object a document decodes to, or None
    parse: string -> Option<JsonObject>,
    // `crypto_pwhash_str`: the hash string of a password, or None
    hash: string -> Option<string>,
    // `crypto_pwhash_str_verify(stored, password) == 0`
    verify: (string, string) -> bool,
    // `db_user_create(email, hash, role)`: the new user's id, or None
    userCreate: (string, string, string) -> Option<string>,
    // `db_user_find_by_email`: the user's id and stored hash, or None
    userFind: string -> Option<(string, string)>,
    // `db_vehicles_list(user_id)`: the JSON listing, or None
    vehiclesList: string -> Option<string>,
    // `db_vehicle_insert(user_id, year, make, model, nickname)`: the inserted record as JSON, or None
    vehicleInsert: (string, int, string, string, string) -> Option<string>)
}
