/**
 * The `wip` sync plug-in (sync/wip.js): each operation becomes one GraphQL
 * mutation sent with the user's API key, and the response decides the
 * outcome through a ladder of checks.
 *
 * The query text, `JSON.stringify` and the timestamp are left out: a request
 * carries the mutation as a datatype. What the awaited `fetch` ends in is the
 * `Transport` parameter; through the demo page it is the response object the
 * host's broker resolves with.
 */
module SyncWip {
  import opened Wrappers
  import opened JsValue
  import Text
  import DemoBroker

  const Endpoint: string := "https://wip.co/graphql"

  /** The second field of an update: `completeTodo` or `uncompleteTodo`. */
  datatype Toggle = CompleteTodo | UncompleteTodo

  /** `completed_at` of a new todo: `null`, or the current time. */
  datatype CompletedAt = CompletedNull | CompletedNow

  datatype Mutation =
    | CreateTodo(text: Value, completedAt: CompletedAt)
    | UpdateTodoBody(id: Value, text: Value, toggle: Toggle)
    | DeleteTodo(id: Value)

  /** A POST to the endpoint with `Authorization: bearer <apiKey>`. */
  datatype Request = Request(url: string, authorization: string, mutation: Mutation)

  /** What awaiting the `fetch` of a request ends in. */
  type Transport = Request -> Completion

  /** `getProps()`: one password prop, `apiKey`, empty until the user fills it in. */
  function Props(): (r: Value)
    ensures ApiKey(r) == Success(Str(""))
  {
    Obj(map["apiKey" := Obj(map["label" := Str("API Key"), "type" := Str("password"), "value" := Str("")])])
  }

  /** `props.apiKey.value`. */
  function ApiKey(props: Value): (r: Result<Value, Value>)
    ensures r.Failure? <==> IsNullish(props) || IsNullish(Get(props, "apiKey").value)
  {
    var key :- Get(props, "apiKey");
    Get(key, "value")
  }

  /** `graphQL(query, apiKey)`: no request, `None`, when the key has no length. */
  function GraphQL(m: Mutation, apiKey: Value): (r: Result<Option<Request>, Value>)
    ensures r.Failure? <==> IsNullish(apiKey)
    ensures r.Success? ==> (r.value.Some? <==> Truthy(Get(apiKey, "length").value))
    ensures r.Success? && r.value.Some? ==>
      r.value.value == Request(Endpoint, "bearer " + Show(apiKey), m)
  {
    var length :- Get(apiKey, "length");
    if !Truthy(length) then Success(None)
    else Success(Some(Request(Endpoint, "bearer " + Show(apiKey), m)))
  }

  /** `await graphQL(..., props.apiKey.value)`: `undefined` when nothing was sent. */
  function Send(props: Value, m: Mutation, transport: Transport): (r: Result<Value, Value>)
    ensures ApiKey(props) == Success(Str("")) ==> r == Success(Undefined)
  {
    var apiKey :- ApiKey(props);
    var request :- GraphQL(m, apiKey);
    match request
    case None => Success(Undefined)
    case Some(q) =>
      match transport(q)
      case Returned(v) => Success(v)
      case Threw(e) => Failure(e)
  }

  /** `const { text, completed = false } = data`: the `completed` that counts. */
  function Completed(data: Value): (r: Result<bool, Value>)
    ensures r.Failure? <==> IsNullish(data)
    ensures r.Success? ==> (r.value <==> Truthy(Get(data, "completed").value))
  {
    var completed :- Get(data, "completed");
    Success(Truthy(if completed.Undefined? then Bool(false) else completed))
  }

  /** The mutation `insertTodo` sends: `completed_at: null` unless `completed` is truthy. */
  function InsertMutation(data: Value): (r: Result<Mutation, Value>)
    ensures r.Failure? <==> IsNullish(data)
    ensures r.Success? ==> r.value.CreateTodo? && r.value.text == Get(data, "text").value
    ensures r.Success? ==> (r.value.completedAt == CompletedNull <==> !Truthy(Get(data, "completed").value))
  {
    var completed :- Completed(data);
    Success(CreateTodo(Get(data, "text").value, if completed then CompletedNow else CompletedNull))
  }

  /** The mutation `updateTodo` sends: the body, then `completeTodo` or `uncompleteTodo`. */
  function UpdateMutation(id: Value, data: Value): (r: Result<Mutation, Value>)
    ensures r.Failure? <==> IsNullish(data)
    ensures r.Success? ==> r.value.UpdateTodoBody? && r.value.id == id && r.value.text == Get(data, "text").value
    ensures r.Success? ==> (r.value.toggle == CompleteTodo <==> Truthy(Get(data, "completed").value))
  {
    var completed :- Completed(data);
    Success(UpdateTodoBody(id, Get(data, "text").value, if completed then CompleteTodo else UncompleteTodo))
  }

  const NoResponse: Value := NewError("No response")

  /** `new Error(\`Request failed ${response.status} ${response.statusText}\`)`. */
  function RequestFailed(response: Value): (r: Value)
    requires !IsNullish(response)
    ensures r.Error? && Text.IsPrefix("Request failed ", r.message)
  {
    NewError("Request failed " + Show(Get(response, "status").value) + " " + Show(Get(response, "statusText").value))
  }

  /** One location: `l:<line> c:<column>`; destructuring a nullish location throws. */
  function LocationText(loc: Value): (r: Result<string, Value>)
    ensures r.Failure? <==> IsNullish(loc)
  {
    var line :- Get(loc, "line");
    Success("l:" + Show(line) + " c:" + Show(Get(loc, "column").value))
  }

  function LocationTexts(locs: seq<Value>): (r: Result<seq<string>, Value>)
    ensures r.Success? ==> |r.value| == |locs|
    ensures r.Success? <==> forall i :: 0 <= i < |locs| ==> !IsNullish(locs[i])
  {
    if |locs| == 0 then Success([])
    else
      var first :- LocationText(locs[0]);
      var rest :- LocationTexts(locs[1..]);
      assert forall i :: 1 <= i < |locs| ==> locs[i] == locs[1..][i - 1];
      Success([first] + rest)
  }

  /** One error: `<message> at <locations joined by ', '>`. */
  function ErrorText(error: Value): (r: Result<string, Value>)
    ensures IsNullish(error) ==> r.Failure?
  {
    var message :- Get(error, "message");
    var locations := Get(error, "locations").value;
    if !locations.Arr? then Failure(if IsNullish(locations) then ReadOfNullish else NotAFunction)
    else
      var texts :- LocationTexts(locations.items);
      Success(Show(message) + " at " + Text.Join(texts, ", "))
  }

  function ErrorTexts(errors: seq<Value>): (r: Result<seq<string>, Value>)
    ensures r.Success? ==> |r.value| == |errors|
  {
    if |errors| == 0 then Success([])
    else
      var first :- ErrorText(errors[0]);
      var rest :- ErrorTexts(errors[1..]);
      Success([first] + rest)
  }

  /** `listErrors(errors)`: the rendered errors joined by `', '`. */
  function ListErrors(errors: Value): (r: Result<string, Value>)
    ensures !errors.Arr? ==> r.Failure?
  {
    if !errors.Arr? then Failure(if IsNullish(errors) then ReadOfNullish else NotAFunction)
    else
      var texts :- ErrorTexts(errors.items);
      Success(Text.Join(texts, ", "))
  }

  /**
   * The response checks of `insertTodo`: no response, then `ok`, then
   * `json.errors` (joined as they are), then `data.createTodo`.
   */
  function ClassifyInsert(response: Value): (r: Result<Value, Value>)
    ensures !Truthy(response) ==> r == Failure(NoResponse)
    ensures Truthy(response) && !Truthy(Get(response, "ok").value) ==> r == Failure(RequestFailed(response))
    ensures r.Success? ==>
      && Truthy(response) && Truthy(Get(response, "ok").value)
      && r.value.Obj? && r.value.fields.Keys == {"id", "url"}
  {
    if !Truthy(response) then Failure(NoResponse)
    else if !Truthy(Get(response, "ok").value) then Failure(RequestFailed(response))
    else
      var json := Get(response, "json").value;
      var errors :- Get(json, "errors");
      if Truthy(errors) then
        if errors.Arr? then Failure(NewError("Request failed " + JoinValues(errors.items, ", ")))
        else Failure(NotAFunction)
      else
        var data := Get(json, "data").value;
        var created :- Get(data, "createTodo");
        var id :- Get(created, "id");
        Success(Obj(map["id" := id, "url" := Get(created, "url").value]))
  }

  /**
   * The response checks of `updateTodo` and `deleteTodo`: no response, then
   * status 404 (false), then `ok`, then `json.errors` through `listErrors`.
   */
  function ClassifyChange(response: Value): (r: Result<Value, Value>)
    ensures !Truthy(response) ==> r == Failure(NoResponse)
    ensures Truthy(response) && Get(response, "status").value == Num(404) ==> r == Success(Bool(false))
    ensures Truthy(response) && Get(response, "status").value != Num(404) && !Truthy(Get(response, "ok").value)
      ==> r == Failure(RequestFailed(response))
    ensures r == Success(Bool(true)) ==>
      Truthy(response) && Get(response, "status").value != Num(404) && Truthy(Get(response, "ok").value)
    ensures r.Success? ==> r.value.Bool?
  {
    if !Truthy(response) then Failure(NoResponse)
    else if Get(response, "status").value == Num(404) then Success(Bool(false))
    else if !Truthy(Get(response, "ok").value) then Failure(RequestFailed(response))
    else
      var json := Get(response, "json").value;
      var errors :- Get(json, "errors");
      if Truthy(errors) then
        var message :- ListErrors(errors);
        Failure(NewError("Request failed " + message))
      else Success(Bool(true))
  }

  /** `insertTodo(props, data)`. */
  function InsertTodo(props: Value, data: Value, transport: Transport): (r: Result<Value, Value>)
    ensures IsNullish(data) ==> r == Failure(ReadOfNullish)
  {
    var m :- InsertMutation(data);
    var response :- Send(props, m, transport);
    ClassifyInsert(response)
  }

  /** `updateTodo(props, id, data)`. */
  function UpdateTodo(props: Value, id: Value, data: Value, transport: Transport): (r: Result<Value, Value>)
    ensures IsNullish(data) ==> r == Failure(ReadOfNullish)
  {
    var m :- UpdateMutation(id, data);
    var response :- Send(props, m, transport);
    ClassifyChange(response)
  }

  /** `deleteTodo(props, id)`. */
  function DeleteTodo(props: Value, id: Value, transport: Transport): (r: Result<Value, Value>)
    ensures IsNullish(props) ==> r == Failure(ReadOfNullish)
  {
    var response :- Send(props, Mutation.DeleteTodo(id), transport);
    ClassifyChange(response)
  }

  /** With an empty API key nothing is sent, and every mutation fails with `'No response'`. */
  lemma EmptyKeySendsNothing(props: Value, id: Value, data: Value, transport: Transport)
    requires ApiKey(props) == Success(Str("")) && !IsNullish(data)
    ensures InsertTodo(props, data, transport) == Failure(NoResponse)
    ensures UpdateTodo(props, id, data, transport) == Failure(NoResponse)
    ensures DeleteTodo(props, id, transport) == Failure(NoResponse)
  {
  }

  /** With its own default props the plug-in never reaches the network. */
  lemma DefaultPropsSendNothing(id: Value, data: Value, transport: Transport)
    requires !IsNullish(data)
    ensures InsertTodo(Props(), data, transport) == Failure(NoResponse)
    ensures UpdateTodo(Props(), id, data, transport) == Failure(NoResponse)
    ensures DeleteTodo(Props(), id, transport) == Failure(NoResponse)
  {
    EmptyKeySendsNothing(Props(), id, data, transport);
  }

  /** A GraphQL error location and error, as the server sends them. */
  datatype Location = Location(line: int, column: int)
  datatype GqlError = GqlError(message: string, locations: seq<Location>)

  function LocationValue(l: Location): Value {
    Obj(map["line" := Num(l.line), "column" := Num(l.column)])
  }

  function ErrorValue(e: GqlError): Value {
    Obj(map["message" := Str(e.message), "locations" := Arr(LocationValues(e.locations))])
  }

  function LocationValues(ls: seq<Location>): (r: seq<Value>)
    ensures |r| == |ls| && forall i :: 0 <= i < |ls| ==> r[i] == LocationValue(ls[i])
  {
    if |ls| == 0 then [] else [LocationValue(ls[0])] + LocationValues(ls[1..])
  }

  function ErrorValues(es: seq<GqlError>): (r: seq<Value>)
    ensures |r| == |es| && forall i :: 0 <= i < |es| ==> r[i] == ErrorValue(es[i])
  {
    if |es| == 0 then [] else [ErrorValue(es[0])] + ErrorValues(es[1..])
  }

  /** The message format over well-formed errors. */
  function FormatLocation(l: Location): string {
    "l:" + Text.IntToString(l.line) + " c:" + Text.IntToString(l.column)
  }

  function FormatLocations(ls: seq<Location>): (r: seq<string>)
    ensures |r| == |ls| && forall i :: 0 <= i < |ls| ==> r[i] == FormatLocation(ls[i])
  {
    if |ls| == 0 then [] else [FormatLocation(ls[0])] + FormatLocations(ls[1..])
  }

  function FormatError(e: GqlError): string {
    e.message + " at " + Text.Join(FormatLocations(e.locations), ", ")
  }

  function FormatErrors(es: seq<GqlError>): (r: seq<string>)
    ensures |r| == |es| && forall i :: 0 <= i < |es| ==> r[i] == FormatError(es[i])
  {
    if |es| == 0 then [] else [FormatError(es[0])] + FormatErrors(es[1..])
  }

  lemma {:induction false} LocationTextsOfValues(ls: seq<Location>)
    ensures LocationTexts(LocationValues(ls)) == Success(FormatLocations(ls))
  {
    if |ls| > 0 {
      assert LocationValues(ls)[1..] == LocationValues(ls[1..]);
      LocationTextsOfValues(ls[1..]);
    }
  }

  lemma {:induction false} ErrorTextsOfValues(es: seq<GqlError>)
    ensures ErrorTexts(ErrorValues(es)) == Success(FormatErrors(es))
  {
    if |es| > 0 {
      LocationTextsOfValues(es[0].locations);
      assert ErrorValues(es)[1..] == ErrorValues(es[1..]);
      ErrorTextsOfValues(es[1..]);
    }
  }

  /**
   * `listErrors` renders each error as `<message> at l:<line> c:<column>, ...`
   * and joins the errors with `', '`.
   */
  lemma ListErrorsFormats(es: seq<GqlError>)
    ensures ListErrors(Arr(ErrorValues(es))) == Success(Text.Join(FormatErrors(es), ", "))
  {
    ErrorTextsOfValues(es);
  }

  /** A single error at a single location. */
  lemma ListErrorsSingle(message: string, line: int, column: int)
    ensures ListErrors(Arr([ErrorValue(GqlError(message, [Location(line, column)]))]))
      == Success(message + " at l:" + Text.IntToString(line) + " c:" + Text.IntToString(column))
  {
    var e := GqlError(message, [Location(line, column)]);
    ListErrorsFormats([e]);
    assert ErrorValues([e]) == [ErrorValue(e)];
    assert FormatLocations(e.locations) == [FormatLocation(Location(line, column))];
    assert FormatErrors([e]) == [FormatError(e)];
    assert Text.Join(FormatLocations(e.locations), ", ") == FormatLocation(Location(line, column));
    assert Text.Join(FormatErrors([e]), ", ") == FormatError(e);
    var a, b := Text.IntToString(line), Text.IntToString(column);
    assert message + " at " + ("l:" + a + " c:" + b) == message + " at l:" + a + " c:" + b;
  }

  /** The response object the demo page's broker resolves with, for a JSON body. */
  function Response(ok: bool, status: int, statusText: string, text: string, json: Value): Value {
    DemoBroker.ResponseObject(text, Some(json), ok, status, statusText)
  }

  /** A successful insert returns the created todo's `id` and `url`. */
  lemma InsertReturnsCreated(status: int, statusText: string, text: string, id: Value, url: Value)
    ensures var json := Obj(map["data" := Obj(map["createTodo" := Obj(map["id" := id, "url" := url])])]);
      ClassifyInsert(Response(true, status, statusText, text, json)) == Success(Obj(map["id" := id, "url" := url]))
  {
  }

  /** 404 means "not found" to update and delete even though the response is not ok; insert reports it as a failure. */
  lemma NotFoundIsFalseOnlyForChanges(statusText: string, text: string, json: Value)
    ensures ClassifyChange(Response(false, 404, statusText, text, json)) == Success(Bool(false))
    ensures ClassifyInsert(Response(false, 404, statusText, text, json)).Failure?
  {
  }

  /** A successful update or delete returns true. */
  lemma ChangeSucceeds(status: int, statusText: string, text: string, data: Value)
    requires status != 404
    ensures ClassifyChange(Response(true, status, statusText, text, Obj(map["data" := data]))) == Success(Bool(true))
  {
  }

  /** Truthy `json.errors` in an ok, non-404 response make update and delete throw with the `listErrors` text. */
  lemma ReportedErrorsThrow(response: Value, json: Value, errors: Value)
    requires Truthy(response) && Get(response, "status").value != Num(404) && Truthy(Get(response, "ok").value)
    requires Get(response, "json") == Success(json) && Get(json, "errors") == Success(errors) && Truthy(errors)
    ensures ListErrors(errors).Success? ==>
      ClassifyChange(response) == Failure(NewError("Request failed " + ListErrors(errors).value))
    ensures ListErrors(errors).Failure? ==> ClassifyChange(response) == Failure(ListErrors(errors).error)
  {
  }

  /** Reported GraphQL errors make update and delete throw with the `listErrors` text. */
  lemma ChangeErrorsThrow(status: int, statusText: string, text: string, es: seq<GqlError>)
    requires status != 404 && |es| > 0
    ensures ClassifyChange(Response(true, status, statusText, text, Obj(map["errors" := Arr(ErrorValues(es))])))
      == Failure(NewError("Request failed " + Text.Join(FormatErrors(es), ", ")))
  {
    var json := Obj(map["errors" := Arr(ErrorValues(es))]);
    var response := Response(true, status, statusText, text, json);
    assert Get(response, "status") == Success(Num(status));
    assert Get(response, "ok") == Success(Bool(true));
    assert Get(response, "json") == Success(json);
    assert Get(json, "errors") == Success(Arr(ErrorValues(es)));
    ReportedErrorsThrow(response, json, Arr(ErrorValues(es)));
    ListErrorsFormats(es);
  }

  /**
   * Insert joins the error objects themselves, so its message shows
   * `[object Object]` for each error rather than the error texts.
   */
  lemma InsertErrorsShowObjects(status: int, statusText: string, text: string, e: GqlError)
    ensures ClassifyInsert(Response(true, status, statusText, text, Obj(map["errors" := Arr([ErrorValue(e)])])))
      == Failure(NewError("Request failed [object Object]"))
  {
    assert JoinValues([ErrorValue(e)], ", ") == "[object Object]";
    assert "Request failed " + "[object Object]" == "Request failed [object Object]";
  }
}
