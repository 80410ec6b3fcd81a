/** The control-API client: request headers and the classification of each
    call's HTTP outcome into the value the caller sees. The transport is not
    modelled; an outcome is an input. */
module AlexClient {
  import opened Wrappers
  import opened Text
  import opened PyJson

  /** What `resp.json()` gives: the parsed value, or the message of the
      `requests.JSONDecodeError` it raises. */
  datatype Body = Parsed(value: Json) | NotJson(message: string)

  /** How a `requests` call ends: a reply, or one of the exceptions the client
      tells apart (all are `requests.RequestException`). */
  datatype HttpOutcome =
    | Reply(status: int, body: Body)
    | Timeout
    | ConnectionError
    | RequestError(message: string)

  /** The reply was a 200 whose body parsed as a JSON object. */
  predicate OkObject(o: HttpOutcome) {
    o.Reply? && o.status == 200 && o.body.Parsed? && o.body.value.Object?
  }

  /** The reply is a 200 object whose `success` is truthy. */
  predicate Succeeded(o: HttpOutcome) {
    OkObject(o) && Truthy(Get(o.body.value.fields, "success", Null))
  }

  /** `_headers(terminal)` for the client's token (the `ALEX_API_TOKEN`
      environment value, `None` when unset). */
  function Headers(terminal: bool, token: Option<string>): (h: map<string, string>)
    ensures "Content-Type" in h && h["Content-Type"] == "application/json"
    ensures "X-Terminal" in h <==> terminal
    ensures "X-Terminal" in h ==> h["X-Terminal"] == "true"
    ensures "Authorization" in h <==> token.Some? && token.value != ""
    ensures "Authorization" in h ==> h["Authorization"] == "Bearer " + token.value
    ensures h.Keys <= {"Content-Type", "X-Terminal", "Authorization"}
  {
    var base := map["Content-Type" := "application/json"];
    var marked := if terminal then base["X-Terminal" := "true"] else base;
    if token.Some? && token.value != "" then marked["Authorization" := "Bearer " + token.value] else marked
  }

  /** `health_check()`: the parsed body of a 200 reply, otherwise `None`. */
  function HealthCheck(o: HttpOutcome): (r: Json)
    ensures r != Null ==> o.Reply? && o.status == 200 && o.body == Parsed(r)
    ensures o.Reply? && o.status == 200 && o.body.Parsed? ==> r == o.body.value
  {
    if o.Reply? && o.status == 200 && o.body.Parsed? then o.body.value else Null
  }

  /** The `(response, error)` pair `send_message` returns; `Null` is `None`. */
  datatype SendResult = SendResult(response: Json, error: Json)

  const TimeoutText := "Request timed out"
  const ConnectText := "Cannot connect to ALEX"

  /** The error `send_message` falls back on when the body has no `error`. */
  function StatusText(status: int): string {
    "HTTP " + IntToString(status)
  }

  /** `send_message(text)` as the code is written. */
  function SendMessage(o: HttpOutcome): (r: SendResult)
    ensures r.response == Null || r.error == Null
    ensures r.response != Null ==> Succeeded(o)
    ensures Succeeded(o) ==> r.error == Null
    ensures o == Timeout ==> r == SendResult(Null, Str(TimeoutText))
    ensures o == ConnectionError ==> r == SendResult(Null, Str(ConnectText))
    ensures o.RequestError? ==> r == SendResult(Null, Str(o.message))
    ensures o.Reply? && o.body.NotJson? ==> r == SendResult(Null, Str(o.body.message))
    ensures o.Reply? && o.body.Parsed? && !o.body.value.Object? ==>
              r == SendResult(Null, Str(NoGetError(o.body.value)))
  {
    match o
    case Timeout => SendResult(Null, Str(TimeoutText))
    case ConnectionError => SendResult(Null, Str(ConnectText))
    case RequestError(m) => SendResult(Null, Str(m))
    case Reply(status, NotJson(m)) => SendResult(Null, Str(m))
    case Reply(status, Parsed(data)) =>
      if !data.Object? then SendResult(Null, Str(NoGetError(data)))
      else if status == 200 && Truthy(Get(data.fields, "success", Null)) then
        SendResult(Get(data.fields, "response", Str("")), Null)
      else
        SendResult(Null, Get(data.fields, "error", Str(StatusText(status))))
  }

  /** A successful command reply carries its `response`, `""` when absent. */
  lemma SendMessageSuccess(status: int, fields: map<string, Json>)
    requires status == 200 && Truthy(Get(fields, "success", Null))
    ensures SendMessage(Reply(status, Parsed(Object(fields)))).response ==
            (if "response" in fields then fields["response"] else Str(""))
  {
  }

  /** Any other object reply is an error: the body's `error`, or
      `"HTTP <status>"` from which the status can be read back. */
  lemma {:induction false} SendMessageFailure(status: int, fields: map<string, Json>)
    requires !(status == 200 && Truthy(Get(fields, "success", Null)))
    ensures var r := SendMessage(Reply(status, Parsed(Object(fields))));
            && r.response == Null
            && ("error" in fields ==> r.error == fields["error"])
            && ("error" !in fields ==> r.error.Str? && r.error.s[..5] == "HTTP "
                                       && ParseInt(r.error.s[5..]) == Some(status))
  {
    var r := SendMessage(Reply(status, Parsed(Object(fields))));
    if "error" !in fields {
      IntToStringRoundTrip(status);
      assert r.error.s[5..] == IntToString(status);
    }
  }

  /** `send_message` with its error made a non-empty string and its response a
      string whenever the pair would otherwise hold no usable text. */
  function SendMessageCorrected(o: HttpOutcome): (r: SendResult)
    ensures (r.response == Null) != (r.error == Null)
    ensures r.response != Null ==> r.response.Str?
    ensures r.error != Null ==> r.error.Str? && r.error.s != ""
    ensures r.response != Null <==> Succeeded(o)
    ensures !Succeeded(o) && SendMessage(o).error.Str? && SendMessage(o).error.s != "" ==> r == SendMessage(o)
    ensures Succeeded(o) ==> r.response == (if SendMessage(o).response.Str? then SendMessage(o).response else Str(""))
  {
    var written := SendMessage(o);
    if Succeeded(o) then
      SendResult(if written.response.Str? then written.response else Str(""), Null)
    else if written.error.Str? && written.error.s != "" then
      written
    else
      SendResult(Null, Str(if o.Reply? then StatusText(o.status) else "Request failed"))
  }

  /** `get_terminal_messages()`: the `messages` of a 200 object reply (`[]`
      when absent), `[]` for anything else, and an AttributeError when a 200
      reply parses to something other than an object. */
  function GetTerminalMessages(o: HttpOutcome): (r: Outcome<Json>)
    ensures r.Throws? <==> o.Reply? && o.status == 200 && o.body.Parsed? && !o.body.value.Object?
    ensures r.Throws? ==> r.error == NoGetError(o.body.value)
    ensures OkObject(o) ==> r == Returns(Get(o.body.value.fields, "messages", List([])))
    ensures r.Returns? && !OkObject(o) ==> r.value == List([])
  {
    if o.Reply? && o.status == 200 && o.body.Parsed? then
      var data := o.body.value;
      if data.Object? then Returns(Get(data.fields, "messages", List([])))
      else Throws(NoGetError(data))
    else Returns(List([]))
  }
}
