/** The OpenCode Zen HTTP client: one POST per model to an endpoint chosen from
    the model's name, then the first choice's message read out of the JSON reply.
    The HTTP transport is the function parameter `Post`. */
module OpencodeZen {
  import opened Wrappers
  import opened PyStr
  import opened Messages
  import Gather

  /** A value that `response.json()` can give (numbers kept as integers). */
  datatype Json =
    | JNull
    | JBool(b: bool)
    | JNumber(n: int)
    | JString(s: string)
    | JArray(items: seq<Json>)
    | JObject(fields: map<string, Json>)

  /** The request body: `{"model": model, "messages": messages}`. */
  datatype Payload = Payload(model: string, messages: seq<Message>)

  /** What `client.post(endpoint, headers=headers, json=payload)` is given. */
  datatype PostRequest = PostRequest(endpoint: string, headers: map<string, string>, payload: Payload)

  /** What the POST gives: a transport failure (timeout, connection error), or a
      status code with a body that may fail to parse as JSON (`None`). */
  datatype HttpOutcome = TransportError | HttpResponse(status: int, body: Option<Json>)

  /** What `query_model` returns on success; `JNull` stands for Python's None. */
  datatype Reply = Reply(content: Json, reasoningDetails: Json)

  type Post = PostRequest -> HttpOutcome

  /** The endpoint: the Anthropic-compatible `/messages` for a model whose
      lower-cased name contains "claude", the OpenAI-compatible `/responses` for
      every other. */
  function Endpoint(baseUrl: string, model: string): (r: string)
    ensures r == baseUrl + "/messages" <==> Contains(Lower(model), "claude")
    ensures r == baseUrl + "/responses" <==> !Contains(Lower(model), "claude")
  {
    assert (baseUrl + "/messages")[|baseUrl| + 1] != (baseUrl + "/responses")[|baseUrl| + 1];
    if Contains(Lower(model), "claude") then baseUrl + "/messages" else baseUrl + "/responses"
  }

  /** The choice depends on the name's letters only, not on their case. */
  lemma EndpointIgnoresCase(baseUrl: string, model: string)
    ensures Endpoint(baseUrl, Lower(model)) == Endpoint(baseUrl, model)
  {
    LowerIdempotent(model);
  }

  /** "claude" at any offset of the lower-cased name, and only there, selects the
      messages endpoint. */
  lemma EndpointByOccurrence(baseUrl: string, model: string)
    ensures Endpoint(baseUrl, model) == baseUrl + "/messages"
            <==> exists i :: OccursAt(Lower(model), "claude", i)
  {
    ContainsIff(Lower(model), "claude");
  }

  /** `f"Bearer {OPENCODE_API_KEY}"`: a set key is sent unchanged after "Bearer ",
      and an unset key reaches the server as the token "None". */
  function BearerValue(apiKey: Option<string>): (v: string)
    ensures |v| >= 7 && v[..7] == "Bearer "
    ensures apiKey.Some? ==> v[7..] == apiKey.value
    ensures apiKey.None? ==> v[7..] == "None"
  {
    "Bearer " + apiKey.GetOr("None")
  }

  /** The headers: exactly `Authorization` and `Content-Type`. */
  function Headers(apiKey: Option<string>): (h: map<string, string>)
    ensures h.Keys == {"Authorization", "Content-Type"}
    ensures h["Authorization"] == BearerValue(apiKey)
    ensures h["Content-Type"] == "application/json"
  {
    map["Authorization" := BearerValue(apiKey), "Content-Type" := "application/json"]
  }

  /** The whole request `query_model` sends: the endpoint above, the two headers,
      and a payload holding the model and the messages unmodified. */
  function Request(apiKey: Option<string>, baseUrl: string, model: string, messages: seq<Message>)
    : (r: PostRequest)
    ensures r.endpoint == Endpoint(baseUrl, model)
    ensures r.headers == Headers(apiKey)
    ensures r.payload.model == model && r.payload.messages == messages
  {
    PostRequest(Endpoint(baseUrl, model), Headers(apiKey), Payload(model, messages))
  }

  /** `message.get(key)`: None (here `JNull`) when the key is missing. */
  function Get(fields: map<string, Json>, key: string): Json {
    if key in fields then fields[key] else JNull
  }

  /** `data['choices'][0]['message']` when that lookup succeeds and gives an
      object (which `.get` needs); None for every lookup that would raise: a
      `data` that is not an object or lacks `choices`, a `choices` that is not a
      non-empty list, a first choice that is not an object with `message`. */
  function FirstMessage(data: Json): (r: Option<map<string, Json>>)
    ensures r.Some? <==>
            && data.JObject? && "choices" in data.fields
            && data.fields["choices"].JArray? && data.fields["choices"].items != []
            && data.fields["choices"].items[0].JObject?
            && "message" in data.fields["choices"].items[0].fields
            && data.fields["choices"].items[0].fields["message"].JObject?
    ensures r.Some? ==> JObject(r.value) == data.fields["choices"].items[0].fields["message"]
  {
    if !data.JObject? || "choices" !in data.fields then None
    else
      var choices := data.fields["choices"];
      if !choices.JArray? || |choices.items| == 0 then None
      else
        var first := choices.items[0];
        if !first.JObject? || "message" !in first.fields then None
        else
          var message := first.fields["message"];
          if message.JObject? then Some(message.fields) else None
  }

  /** The reply built from a parsed body: `content` and `reasoning_details` of the
      first choice's message, each None when missing; None when the lookup
      raises. */
  function ReplyOf(data: Json): (r: Option<Reply>)
    ensures r.Some? <==> FirstMessage(data).Some?
    ensures r.Some? ==> r.value.content == Get(FirstMessage(data).value, "content")
    ensures r.Some? ==> r.value.reasoningDetails == Get(FirstMessage(data).value, "reasoning_details")
  {
    match FirstMessage(data)
    case None => None
    case Some(message) => Some(Reply(Get(message, "content"), Get(message, "reasoning_details")))
  }

  /** Only the first choice's message is read: whatever other keys the body and
      the first choice have, and whatever choices follow, a message object there
      gives that message's two fields. */
  lemma ReplyOfFirstChoice(fields: map<string, Json>, first: map<string, Json>, rest: seq<Json>)
    requires "choices" in fields && fields["choices"] == JArray([JObject(first)] + rest)
    requires "message" in first && first["message"].JObject?
    ensures ReplyOf(JObject(fields))
            == Some(Reply(Get(first["message"].fields, "content"), Get(first["message"].fields, "reasoning_details")))
  {
    assert fields["choices"].items[0] == JObject(first);
  }

  /** A first choice that is not an object, has no `message`, or whose `message`
      is not an object makes the lookup (or `.get`) raise: no reply. */
  lemma ReplyOfNoMessage(fields: map<string, Json>, first: Json, rest: seq<Json>)
    requires "choices" in fields && fields["choices"] == JArray([first] + rest)
    requires !first.JObject? || "message" !in first.fields || !first.fields["message"].JObject?
    ensures ReplyOf(JObject(fields)).None?
  {
    assert fields["choices"].items[0] == first;
  }

  /** A body that is not an object, has no `choices`, or whose `choices` is not a
      non-empty list gives no reply. */
  lemma ReplyOfNoChoices(data: Json)
    ensures !data.JObject? ==> ReplyOf(data).None?
    ensures data.JObject? && "choices" !in data.fields ==> ReplyOf(data).None?
    ensures data.JObject? && "choices" in data.fields
            && (!data.fields["choices"].JArray? || data.fields["choices"].items == [])
            ==> ReplyOf(data).None?
  {
  }

  /** `raise_for_status` lets through the 2xx statuses only. */
  predicate IsSuccess(status: int) {
    200 <= status < 300
  }

  /** `query_model`: a reply only when the POST succeeds with a 2xx status, the
      body parses as JSON and holds a first choice with a message object; every
      other outcome is caught and gives None. */
  function QueryModel(apiKey: Option<string>, baseUrl: string, model: string, messages: seq<Message>, post: Post)
    : (r: Option<Reply>)
    ensures r.Some? <==>
            var outcome := post(Request(apiKey, baseUrl, model, messages));
            && outcome.HttpResponse? && IsSuccess(outcome.status)
            && outcome.body.Some? && FirstMessage(outcome.body.value).Some?
    ensures r.Some? ==> r == ReplyOf(post(Request(apiKey, baseUrl, model, messages)).body.value)
  {
    match post(Request(apiKey, baseUrl, model, messages))
    case TransportError => None
    case HttpResponse(status, body) =>
      if !IsSuccess(status) || body.None? then None
      else ReplyOf(body.value)
  }

  /** `query_models_parallel`, with the queries taken one after another: a map
      whose keys are exactly the given models, each sent to the outcome of its own
      query. */
  function QueryModelsParallel(apiKey: Option<string>, baseUrl: string, models: seq<string>,
                               messages: seq<Message>, post: Post)
    : (r: map<string, Option<Reply>>)
    ensures r.Keys == set m | m in models
    ensures forall m :: m in models ==> r[m] == QueryModel(apiKey, baseUrl, m, messages, post)
  {
    var responses := seq(|models|, i requires 0 <= i < |models| => QueryModel(apiKey, baseUrl, models[i], messages, post));
    Gather.ZipToMapKeys(models, responses);
    var f := m => QueryModel(apiKey, baseUrl, m, messages, post);
    assert forall m :: m in models ==> Gather.ZipToMap(models, responses)[m] == f(m) by {
      forall m | m in models ensures Gather.ZipToMap(models, responses)[m] == f(m) {
        Gather.ZipToMapOfFunction(models, responses, f, m);
      }
    }
    Gather.ZipToMap(models, responses)
  }
}
