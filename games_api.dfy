/** The game API helpers of the src/ screens (src/api/games.js): the
    request each helper sends, the JSON body it writes, and how the response
    becomes a value or an error. The network itself is not modelled: a
    response is given as its `ok` flag and its body. */
module GamesApi {
  import opened Wrappers
  import opened JsValue

  /** What the server answered: `response.ok`, and the body `response.json()`
      reads (None when the body is not valid JSON). */
  datatype Response = Response(ok: bool, body: Option<Js>)

  /** A request: method, path below the API base URL, JSON body if any. */
  datatype Request = Request(verb: string, path: string, body: Option<JsObject>)

  const FetchAllFailed := "No se pudieron obtener los juegos."
  const NotFound := "Juego no encontrado."
  const CreateFailed := "No se pudo crear el juego."
  const UpdateFailed := "No se pudo actualizar el juego."
  const DeleteFailed := "No se pudo eliminar el juego."
  /** The message of the SyntaxError `response.json()` throws on a body that
      is not JSON. */
  const InvalidJson := "SyntaxError: invalid JSON"

  /** `return response.json()`: the parsed body, or the parse error. */
  function ReadBody(resp: Response): (r: Result<Js>)
    ensures r.Ok? <==> resp.body.Some?
  {
    match resp.body
    case Some(v) => Ok(v)
    case None => Err(InvalidJson)
  }

  /** A parsed body taken as one record: an object, or none. */
  function AsRecord(v: Js): (g: Option<JsObject>)
    ensures g.Some? <==> v.Obj?
    ensures v.Obj? ==> g.value == v.fields
  {
    if v.Obj? then Some(v.fields) else None
  }

  /** `if (!response.ok) throw new Error(message); return response.json();` */
  function Checked(resp: Response, message: string): (r: Result<Js>)
    ensures !resp.ok ==> r == Err(message)
    ensures resp.ok ==> r == ReadBody(resp)
  {
    if !resp.ok then Err(message) else ReadBody(resp)
  }

  function GetGamesRequest(): Request
  {
    Request("GET", "/games", None)
  }

  function GetGamesResult(resp: Response): Result<Js>
  {
    Checked(resp, FetchAllFailed)
  }

  function GetGameByIdRequest(id: string): Request
  {
    Request("GET", "/games/" + id, None)
  }

  function GetGameByIdResult(resp: Response): Result<Js>
  {
    Checked(resp, NotFound)
  }

  /** `createGame`: POST of the game as JSON. */
  function CreateGameRequest(gameData: JsObject): Request
  {
    Request("POST", "/games", Some(JsonFields(gameData)))
  }

  function CreateGameResult(resp: Response): Result<Js>
  {
    Checked(resp, CreateFailed)
  }

  function DeleteGameRequest(id: string): Request
  {
    Request("DELETE", "/games/" + id, None)
  }

  function DeleteGameResult(resp: Response): Result<Js>
  {
    Checked(resp, DeleteFailed)
  }

  /** Every helper but `updateGame` fails with its own fixed message on a
      response that is not ok, and otherwise yields the parsed body. */
  lemma FixedMessages(resp: Response)
    ensures !resp.ok ==> GetGamesResult(resp) == Err(FetchAllFailed)
    ensures !resp.ok ==> GetGameByIdResult(resp) == Err(NotFound)
    ensures !resp.ok ==> CreateGameResult(resp) == Err(CreateFailed)
    ensures !resp.ok ==> DeleteGameResult(resp) == Err(DeleteFailed)
    ensures resp.ok && resp.body.Some? ==>
      var v := Ok(resp.body.value);
      GetGamesResult(resp) == v && GetGameByIdResult(resp) == v
      && CreateGameResult(resp) == v && DeleteGameResult(resp) == v
  {
  }

  // ---------------------------------------------------------------------------
  // updateGame

  /** `x !== undefined ? Number(x) : undefined`. */
  function NumberIfDefined(x: Js): (r: Js)
    ensures x == Undefined ==> r == Undefined
    ensures x != Undefined ==> r.Num? || r.NaN?
  {
    if x != Undefined then ToNumber(x) else Undefined
  }

  /** `dataToSend`: the input with `rating` and `hoursPlayed` converted to
      numbers when they are defined. */
  function UpdatePayload(gameData: JsObject): (r: JsObject)
    ensures Get(r, "rating") == NumberIfDefined(Get(gameData, "rating"))
    ensures Get(r, "hoursPlayed") == NumberIfDefined(Get(gameData, "hoursPlayed"))
    ensures forall k :: k != "rating" && k != "hoursPlayed" ==> Get(r, k) == Get(gameData, k)
  {
    gameData["rating" := NumberIfDefined(Get(gameData, "rating"))]
            ["hoursPlayed" := NumberIfDefined(Get(gameData, "hoursPlayed"))]
  }

  /** `updateGame`: PUT of `dataToSend` as JSON. */
  function UpdateGameRequest(id: string, gameData: JsObject): Request
  {
    Request("PUT", "/games/" + id, Some(JsonFields(UpdatePayload(gameData))))
  }

  /** The message of the error `updateGame` throws for a body read from a
      failed response: `errorData.message || default`. Reading a property
      of `null` is itself a TypeError. */
  function UpdateErrorMessage(errorData: Js): Result<string>
  {
    match errorData
    case Null => Err("TypeError: Cannot read properties of null (reading 'message')")
    case Undefined => Err("TypeError: Cannot read properties of undefined (reading 'message')")
    case Obj(fields) => Ok(ToString(Or(Get(fields, "message"), Str(UpdateFailed))))
    case _ => Ok(UpdateFailed)
  }

  /** What `updateGame` resolves to or throws. */
  function UpdateGameResult(resp: Response): (r: Result<Js>)
    ensures resp.ok ==> r == ReadBody(resp)
    ensures !resp.ok ==> r.Err?
  {
    if resp.ok then ReadBody(resp)
    else
      match resp.body
      case None => Err(InvalidJson)
      case Some(errorData) =>
        match UpdateErrorMessage(errorData)
        case Ok(m) => Err(m)
        case Err(e) => Err(e)
  }

  /** A failed update reports the server's message when it is a non-empty
      string and the default text when the body has no truthy message. */
  lemma UpdateErrorUsesServerMessage(fields: JsObject)
    ensures var resp := Response(false, Some(Obj(fields)));
      && (Get(fields, "message").Str? && Get(fields, "message").s != [] ==>
            UpdateGameResult(resp) == Err(Get(fields, "message").s))
      && (!Truthy(Get(fields, "message")) ==> UpdateGameResult(resp) == Err(UpdateFailed))
  {
  }

  /** On the wire, `rating` and `hoursPlayed` are present exactly when the
      input defines them, and then as a number (NaN is written as null);
      every other field the input defines is sent unchanged, NaN as null. */
  lemma UpdateWireBody(gameData: JsObject)
    ensures var body := JsonFields(UpdatePayload(gameData));
      && ("rating" in body <==> Get(gameData, "rating") != Undefined)
      && ("rating" in body ==> body["rating"].Num? || body["rating"].Null?)
      && ("rating" in body && ToNumber(Get(gameData, "rating")).Num? ==>
            body["rating"] == ToNumber(Get(gameData, "rating")))
      && ("hoursPlayed" in body <==> Get(gameData, "hoursPlayed") != Undefined)
      && ("hoursPlayed" in body ==> body["hoursPlayed"].Num? || body["hoursPlayed"].Null?)
      && (forall k :: k != "rating" && k != "hoursPlayed" ==>
            (k in body <==> Get(gameData, k) != Undefined)
            && (k in body ==> body[k] == if gameData[k] == NaN then Null else gameData[k]))
  {
    var p := UpdatePayload(gameData);
    assert forall k :: k in p <==> k in gameData || k == "rating" || k == "hoursPlayed";
  }

  // ---------------------------------------------------------------------------
  // The single-field helpers

  /** `updateGameCompletedStatus`: `updateGame(id, { completed: Boolean(c) })`. */
  function CompletedRequest(id: string, completedStatus: Js): Request
  {
    UpdateGameRequest(id, map["completed" := Bool(Truthy(completedStatus))])
  }

  /** `updateGameRating`: `updateGame(id, { rating: Number(r) })`. */
  function RatingRequest(id: string, newRating: Js): Request
  {
    UpdateGameRequest(id, map["rating" := ToNumber(newRating)])
  }

  /** `updateGameHoursPlayed`: `updateGame(id, { hoursPlayed: Number(h) })`. */
  function HoursRequest(id: string, newHours: Js): Request
  {
    UpdateGameRequest(id, map["hoursPlayed" := ToNumber(newHours)])
  }

  /** JSON's rendering of a number value: NaN becomes null. */
  function JsonNumber(v: Js): Js
  {
    if v == NaN then Null else v
  }

  /** Each helper sends a PUT to its game whose body holds only its own field:
      `completed` as a boolean, `rating` and `hoursPlayed` as numbers
      (converting twice is converting once). */
  lemma SingleFieldBodies(id: string, v: Js)
    ensures CompletedRequest(id, v) == Request("PUT", "/games/" + id, Some(map["completed" := Bool(Truthy(v))]))
    ensures RatingRequest(id, v) == Request("PUT", "/games/" + id, Some(map["rating" := JsonNumber(ToNumber(v))]))
    ensures HoursRequest(id, v) == Request("PUT", "/games/" + id, Some(map["hoursPlayed" := JsonNumber(ToNumber(v))]))
  {
    CompletedBody(Bool(Truthy(v)));
    NumberBody("rating", "hoursPlayed", v);
    NumberBody("hoursPlayed", "rating", v);
  }

  lemma CompletedBody(b: Js)
    requires b.Bool?
    ensures JsonFields(UpdatePayload(map["completed" := b])) == map["completed" := b]
  {
    var m := map["completed" := b];
    var p := UpdatePayload(m);
    assert p == m["rating" := Undefined]["hoursPlayed" := Undefined];
    assert JsonFields(p).Keys == {"completed"};
  }

  /** The body of a payload holding only the number field `key`. */
  lemma NumberBody(key: string, other: string, v: Js)
    requires {key, other} == {"rating", "hoursPlayed"}
    ensures JsonFields(UpdatePayload(map[key := ToNumber(v)])) == map[key := JsonNumber(ToNumber(v))]
  {
    ToNumberIdempotent(v);
    var m := map[key := ToNumber(v)];
    var p := UpdatePayload(m);
    assert p == map[key := ToNumber(v), other := Undefined];
    assert JsonFields(p).Keys == {key};
  }
}
