/** The OpenCode serve client wrapper: it creates a session per query, flattens a
    role-tagged message list into one system prompt and one conversation text,
    sends them, and reads the reply back out of the response parts. The generated
    API client is a pair of function parameters: `CreateApi` for
    `api.create_session` and `SendApi` for `api.send_message`, each giving None
    when the call fails (the wrappers catch every exception and return None). */
module OpencodeClient {
  import opened Wrappers
  import opened PyStr
  import opened Messages
  import Gather

  /** A message part, as a dict or as an object: its `type` and `text` may be
      absent. */
  datatype Part = Part(kind: Option<string>, text: Option<string>)

  /** A created session; only its `id` key matters here. */
  datatype Session = Session(id: Option<string>)

  /** `CreateSessionRequest(**request_data)`: a field is None when its key was not
      put in `request_data`. */
  datatype CreateSessionRequest = CreateSessionRequest(title: Option<string>, parentId: Option<string>)

  /** `SendMessageRequest(**request_data)`. */
  datatype SendMessageRequest =
    SendMessageRequest(parts: seq<Part>, noReply: bool, model: Option<string>, system: Option<string>)

  /** The dict that `send_message` returns; only its `info` and `parts` keys are
      kept. */
  datatype MessageResponse = MessageResponse(info: Option<map<string, string>>, parts: Option<seq<Part>>) {
    /** Python's truth value of the dict: false exactly when it is empty. */
    predicate Truthy() {
      info.Some? || parts.Some?
    }
  }

  /** What `query_model` returns on success: `content` and `reasoning_details`. */
  datatype Reply = Reply(content: string, reasoningDetails: Option<string>)

  type CreateApi = Option<CreateSessionRequest> -> Option<Session>
  type SendApi = (string, SendMessageRequest) -> Option<MessageResponse>

  /** The request of `create_session`: `title` and `parent_id` are put into the
      dict only when truthy, and no request at all is made from an empty dict. */
  method BuildSessionRequest(title: Option<string>, parentId: Option<string>)
    returns (req: Option<CreateSessionRequest>)
    ensures req.None? <==> !Truthy(title) && !Truthy(parentId)
    ensures req.Some? ==> (req.value.title.Some? <==> Truthy(title))
    ensures req.Some? ==> (req.value.parentId.Some? <==> Truthy(parentId))
    ensures req.Some? && req.value.title.Some? ==> req.value.title == title
    ensures req.Some? && req.value.parentId.Some? ==> req.value.parentId == parentId
  {
    var data := CreateSessionRequest(None, None);
    if Truthy(title) {
      data := data.(title := title);
    }
    if Truthy(parentId) {
      data := data.(parentId := parentId);
    }
    req := if data == CreateSessionRequest(None, None) then None else Some(data);
  }

  /** The request of `send_message`: one text part holding `text`, `no_reply`
      false, and `model` and `system` only when truthy. */
  method BuildSendRequest(text: string, model: Option<string>, system: Option<string>)
    returns (req: SendMessageRequest)
    ensures req.parts == [Part(Some("text"), Some(text))] && !req.noReply
    ensures req.model.Some? <==> Truthy(model)
    ensures req.system.Some? <==> Truthy(system)
    ensures req.model.Some? ==> req.model == model
    ensures req.system.Some? ==> req.system == system
  {
    req := SendMessageRequest([Part(Some("text"), Some(text))], false, None, None);
    if Truthy(model) {
      req := req.(model := model);
    }
    if Truthy(system) {
      req := req.(system := system);
    }
  }

  /** `[m["content"] for m in messages if m.get("role") == "system"]`; None stands
      for the KeyError raised by a system message without content. */
  function SystemMessages(msgs: seq<Message>): (r: Option<seq<string>>)
    ensures r.Some? <==> forall i :: 0 <= i < |msgs| && IsSystem(msgs[i]) ==> msgs[i].content.Some?
    ensures r.Some? ==> |r.value| <= |msgs|
  {
    if msgs == [] then Some([])
    else
      var rest := SystemMessages(msgs[1..]);
      assert forall i :: 1 <= i < |msgs| ==> msgs[i] == msgs[1..][i - 1];
      if !IsSystem(msgs[0]) then rest
      else if msgs[0].content.None? || rest.None? then None
      else Some([msgs[0].content.value] + rest.value)
  }

  /** The system contents of a concatenation are those of each half, in order; a
      missing content on either side is an error for the whole. */
  lemma {:induction false} SystemMessagesAppend(a: seq<Message>, b: seq<Message>)
    ensures SystemMessages(a + b) ==
            if SystemMessages(a).Some? && SystemMessages(b).Some?
            then Some(SystemMessages(a).value + SystemMessages(b).value)
            else None
  {
    if a == [] {
      assert a + b == b;
      if SystemMessages(b).Some? {
        assert [] + SystemMessages(b).value == SystemMessages(b).value;
      }
    } else {
      assert (a + b)[0] == a[0];
      assert (a + b)[1..] == a[1..] + b;
      SystemMessagesAppend(a[1..], b);
      if IsSystem(a[0]) && a[0].content.Some? && SystemMessages(a[1..]).Some? && SystemMessages(b).Some? {
        var c, x, y := a[0].content.value, SystemMessages(a[1..]).value, SystemMessages(b).value;
        assert [c] + (x + y) == ([c] + x) + y;
      }
    }
  }

  /** One message on its own: a system message gives its content (or the error),
      any other message gives nothing. */
  lemma SystemMessagesSingle(m: Message)
    ensures SystemMessages([m]) ==
            if !IsSystem(m) then Some([])
            else if m.content.Some? then Some([m.content.value])
            else None
  {
    assert [m][1..] == [];
    assert SystemMessages([]) == Some([]);
    if m.content.Some? {
      assert [m.content.value] + [] == [m.content.value];
    }
  }

  /** `[m for m in messages if m.get("role") != "system"]`. */
  function ConversationMessages(msgs: seq<Message>): (r: seq<Message>)
    ensures |r| <= |msgs|
    ensures forall i :: 0 <= i < |r| ==> !IsSystem(r[i]) && r[i] in msgs
  {
    if msgs == [] then []
    else if IsSystem(msgs[0]) then ConversationMessages(msgs[1..])
    else [msgs[0]] + ConversationMessages(msgs[1..])
  }

  /** Filtering keeps the order: the kept messages of a concatenation are those of
      the first half followed by those of the second. */
  lemma {:induction false} ConversationMessagesAppend(a: seq<Message>, b: seq<Message>)
    ensures ConversationMessages(a + b) == ConversationMessages(a) + ConversationMessages(b)
  {
    if a != [] {
      assert (a + b)[1..] == a[1..] + b;
      ConversationMessagesAppend(a[1..], b);
    } else {
      assert a + b == b;
    }
  }

  /** Every non-system message is kept, with or without a role; a system message
      is dropped. */
  lemma ConversationMessagesSingle(m: Message)
    ensures ConversationMessages([m]) == if IsSystem(m) then [] else [m]
  {
    assert [m][1..] == [];
  }

  /** Each message goes into the conversation text or the system prompt, never
      both and never neither. */
  lemma {:induction false} SplitPartitions(msgs: seq<Message>)
    requires SystemMessages(msgs).Some?
    ensures |ConversationMessages(msgs)| + |SystemMessages(msgs).value| == |msgs|
  {
    if msgs != [] {
      SplitPartitions(msgs[1..]);
    }
  }

  /** What one message adds to `conversation_text`: a missing role reads as
      "user", a missing content as "". */
  function Contribution(m: Message): (r: string)
    ensures IsSystem(m) ==> r == ""
    ensures EmptyOrEndsWith(r, '\n')
  {
    var role := m.role.GetOr("user");
    var content := m.content.GetOr("");
    if role == "user" then content + "\n"
    else if role == "assistant" then "Assistant: " + content + "\n"
    else ""
  }

  /** The conversation text of a message list: formatted from the non-system
      messages only, and ending with a newline unless it is empty, which is why
      `query_model` strips it. */
  function ConversationText(msgs: seq<Message>): (r: string)
    ensures ConversationMessages(msgs) == [] ==> r == ""
    ensures EmptyOrEndsWith(r, '\n')
  {
    ConcatMapEndsWith(ConversationMessages(msgs), Contribution, '\n');
    ConcatMap(ConversationMessages(msgs), Contribution)
  }

  /** The conversation text is the messages' contributions in their original order:
      it splits over a concatenation, a user message or one with no role adds its
      content and a newline, an assistant message adds it behind "Assistant: ",
      and any other role, system included, adds nothing. */
  lemma ConversationTextAppend(a: seq<Message>, b: seq<Message>)
    ensures ConversationText(a + b) == ConversationText(a) + ConversationText(b)
  {
    ConversationMessagesAppend(a, b);
    ConcatMapAppend(ConversationMessages(a), ConversationMessages(b), Contribution);
  }

  lemma ConversationTextSingle(m: Message)
    ensures ConversationText([m]) ==
            if m.role.None? || m.role == Some("user") then m.content.GetOr("") + "\n"
            else if m.role == Some("assistant") then "Assistant: " + m.content.GetOr("") + "\n"
            else ""
  {
    ConversationMessagesSingle(m);
    assert ConcatMap([m], Contribution) == ConcatMap([], Contribution) + Contribution(m);
  }

  /** Filtering out the system messages does not change the text, since the role
      test gives them no contribution anyway. */
  lemma {:induction false} ConversationTextIgnoresSystem(msgs: seq<Message>)
    ensures ConversationText(msgs) == ConcatMap(msgs, Contribution)
    decreases |msgs|
  {
    if msgs != [] {
      var n := |msgs|;
      var init, last := msgs[..n - 1], msgs[n - 1];
      assert msgs == init + [last];
      ConversationTextAppend(init, [last]);
      ConversationTextIgnoresSystem(init);
      ConversationTextSingle(last);
      assert ConcatMap([last], Contribution) == ConcatMap([], Contribution) + Contribution(last);
      ConcatMapAppend(init, [last], Contribution);
    }
  }

  /** `"\n".join(system_messages) if system_messages else None`. */
  function SystemPrompt(system: seq<string>): (r: Option<string>)
    ensures r.None? <==> system == []
  {
    if system == [] then None else Some(Join(system, "\n"))
  }

  /** When no system content holds a newline, the system prompt splits back into
      the system contents. */
  lemma SystemPromptRecoverable(system: seq<string>)
    requires system != []
    requires forall i :: 0 <= i < |system| ==> '\n' !in system[i]
    ensures Split(SystemPrompt(system).value, '\n') == system
  {
    SplitJoin(system, '\n');
  }

  /** The texts of the parts whose type is "text", in order, a missing text read
      as "". */
  function TextParts(parts: seq<Part>): (r: seq<string>)
    ensures |r| <= |parts|
  {
    if parts == [] then []
    else
      var last := parts[|parts| - 1];
      TextParts(parts[..|parts| - 1]) + (if last.kind == Some("text") then [last.text.GetOr("")] else [])
  }

  lemma {:induction false} TextPartsAppend(a: seq<Part>, b: seq<Part>)
    ensures TextParts(a + b) == TextParts(a) + TextParts(b)
    decreases |b|
  {
    if b == [] {
      assert a + b == a;
    } else {
      var n := |b|;
      assert (a + b)[..|a + b| - 1] == a + b[..n - 1];
      TextPartsAppend(a, b[..n - 1]);
    }
  }

  lemma TextPartsSingle(p: Part)
    ensures TextParts([p]) == if p.kind == Some("text") then [p.text.GetOr("")] else []
  {
    assert [p][..0] == [];
  }

  /** `"\n".join(content_parts)`: no text part gives "", and when no part's text
      holds a newline the content splits back into the texts of the text parts. */
  lemma ExtractedContentRecoverable(parts: seq<Part>)
    requires forall i :: 0 <= i < |TextParts(parts)| ==> '\n' !in TextParts(parts)[i]
    ensures TextParts(parts) == [] ==> Join(TextParts(parts), "\n") == ""
    ensures TextParts(parts) != [] ==> Split(Join(TextParts(parts), "\n"), '\n') == TextParts(parts)
  {
    if TextParts(parts) != [] {
      SplitJoin(TextParts(parts), '\n');
    }
  }

  /** The loop of `query_model` that builds `conversation_text` with `+=`. */
  method FormatConversation(conversation: seq<Message>) returns (text: string)
    ensures text == ConcatMap(conversation, Contribution)
  {
    text := "";
    for i := 0 to |conversation|
      invariant text == ConcatMap(conversation[..i], Contribution)
    {
      var msg := conversation[i];
      var role := msg.role.GetOr("user");
      var content := msg.content.GetOr("");
      if role == "user" {
        text := text + content + "\n";
      } else if role == "assistant" {
        text := text + "Assistant: " + content + "\n";
      }
      assert conversation[..i + 1][..i] == conversation[..i];
    }
    assert conversation[..|conversation|] == conversation;
  }

  /** The loop of `query_model` that appends to `content_parts`, then the join. */
  method ExtractContent(parts: seq<Part>) returns (content: string)
    ensures content == Join(TextParts(parts), "\n")
  {
    var contentParts: seq<string> := [];
    for i := 0 to |parts|
      invariant contentParts == TextParts(parts[..i])
    {
      var part := parts[i];
      if part.kind == Some("text") {
        contentParts := contentParts + [part.text.GetOr("")];
      }
      assert parts[..i + 1][..i] == parts[..i];
    }
    assert parts[..|parts|] == parts;
    content := Join(contentParts, "\n");
  }

  /** The title `query_model` gives its session. */
  function SessionTitle(model: string): string {
    "Council query: " + model
  }

  /** The session `query_model` asks for: titled after the model, no parent. */
  function SessionOf(model: string, createApi: CreateApi): Option<Session> {
    createApi(Some(CreateSessionRequest(Some(SessionTitle(model)), None)))
  }

  /** The result of `query_model(model, messages)` against the given API: None
      when the session is missing or has no id, when a system message has no
      content, or when the send gives no (or an empty) response; otherwise the
      text parts of the response joined by newlines, with no reasoning details. */
  function QueryOutcome(model: string, messages: seq<Message>, createApi: CreateApi, sendApi: SendApi)
    : (r: Option<Reply>)
    ensures r.None? <==>
            || !SessionOk(SessionOf(model, createApi))
            || SystemMessages(messages).None?
            || !ResponseOk(sendApi(SessionOf(model, createApi).value.id.value, SentRequest(model, messages)))
    ensures r.Some? ==> r.value.reasoningDetails.None?
  {
    if !SessionOk(SessionOf(model, createApi)) || SystemMessages(messages).None? then None
    else ReplyOf(sendApi(SessionOf(model, createApi).value.id.value, SentRequest(model, messages)))
  }

  /** `session and 'id' in session`. */
  predicate SessionOk(session: Option<Session>) {
    session.Some? && session.value.id.Some?
  }

  /** `if not response` lets through neither None nor an empty dict. */
  predicate ResponseOk(response: Option<MessageResponse>) {
    response.Some? && response.value.Truthy()
  }

  /** The end of `query_model`: no reply from a missing or empty response,
      otherwise the texts of its text parts joined by newlines (none when it has no
      `parts` key), and never any reasoning details. */
  function ReplyOf(response: Option<MessageResponse>): (r: Option<Reply>)
    ensures r.Some? <==> ResponseOk(response)
    ensures r.Some? ==> r.value.reasoningDetails.None?
    ensures r.Some? && TextParts(response.value.parts.GetOr([])) == [] ==> r.value.content == ""
  {
    if !ResponseOk(response) then None
    else Some(Reply(Join(TextParts(response.value.parts.GetOr([])), "\n"), None))
  }

  /** The request `query_model` hands to `send_message`, for messages whose
      system ones all have content. */
  function SentRequest(model: string, messages: seq<Message>): (r: SendMessageRequest)
    requires SystemMessages(messages).Some?
    ensures r.parts == [Part(Some("text"), Some(Strip(ConversationText(messages))))] && !r.noReply
    ensures r.model.Some? <==> model != ""
    ensures r.model.Some? ==> r.model.value == model
    ensures r.system.Some? <==> Truthy(SystemPrompt(SystemMessages(messages).value))
    ensures r.system.Some? ==> r.system == SystemPrompt(SystemMessages(messages).value)
  {
    var system := SystemPrompt(SystemMessages(messages).value);
    SendMessageRequest([Part(Some("text"), Some(Strip(ConversationText(messages))))], false,
                       if model != "" then Some(model) else None,
                       if Truthy(system) then system else None)
  }

  /** The text sent is the stripped conversation text: it never starts or ends
      with whitespace, so in particular not with the last message's newline. The
      system prompt goes along exactly when the system contents join to a
      non-empty text. */
  lemma SentRequestShape(model: string, messages: seq<Message>)
    requires SystemMessages(messages).Some?
    ensures var req := SentRequest(model, messages);
            && |req.parts| == 1 && req.parts[0].kind == Some("text") && !req.noReply
            && NoEdgeSpace(req.parts[0].text.value)
            && (req.parts[0].text.value == [] || req.parts[0].text.value[|req.parts[0].text.value| - 1] != '\n')
            && (req.system.Some? <==> SystemMessages(messages).value != [] && Join(SystemMessages(messages).value, "\n") != "")
  {
  }

  /** The middle of `query_model`: split the messages, format the conversation
      and build the request; None for the KeyError of a system message without
      content. */
  method PrepareRequest(model: string, messages: seq<Message>) returns (request: Option<SendMessageRequest>)
    ensures request.None? <==> SystemMessages(messages).None?
    ensures request.Some? ==> request.value == SentRequest(model, messages)
  {
    var systemMessages := SystemMessages(messages);
    if systemMessages.None? {
      return None;
    }
    var conversationMessages := ConversationMessages(messages);
    var conversationText := FormatConversation(conversationMessages);
    var systemPrompt := SystemPrompt(systemMessages.value);
    assert conversationText == ConversationText(messages);
    var req := BuildSendRequest(Strip(conversationText), Some(model), systemPrompt);
    var expected := SentRequest(model, messages);
    assert req.parts == expected.parts && req.noReply == expected.noReply;
    assert req.model == expected.model;
    assert req.system == expected.system;
    return Some(req);
  }

  /** `query_model`: create a session, split and format the messages, send them
      and read the text parts back. */
  method QueryModel(model: string, messages: seq<Message>, createApi: CreateApi, sendApi: SendApi)
    returns (r: Option<Reply>)
    ensures r == QueryOutcome(model, messages, createApi, sendApi)
  {
    var sessionRequest := BuildSessionRequest(Some(SessionTitle(model)), None);
    assert sessionRequest == Some(CreateSessionRequest(Some(SessionTitle(model)), None));
    var session := createApi(sessionRequest);
    assert session == SessionOf(model, createApi);
    if session.None? || session.value.id.None? {
      return None;
    }
    var request := PrepareRequest(model, messages);
    if request.None? {
      return None;
    }
    var response := sendApi(session.value.id.value, request.value);
    assert response == sendApi(SessionOf(model, createApi).value.id.value, SentRequest(model, messages));
    r := ReadReply(response);
  }

  /** `if not response: return None`, then the part extraction loop. */
  method ReadReply(response: Option<MessageResponse>) returns (r: Option<Reply>)
    ensures r == ReplyOf(response)
  {
    if response.None? || !response.value.Truthy() {
      return None;
    }
    var content := ExtractContent(response.value.parts.GetOr([]));
    return Some(Reply(content, None));
  }

  /** `query_models_parallel`, with the queries taken one after another: a map
      whose keys are exactly the given models, each sent to the outcome of its own
      query. */
  function QueryModelsParallel(models: seq<string>, messages: seq<Message>, createApi: CreateApi, sendApi: SendApi)
    : (r: map<string, Option<Reply>>)
    ensures r.Keys == set m | m in models
    ensures forall m :: m in models ==> r[m] == QueryOutcome(m, messages, createApi, sendApi)
  {
    var responses := seq(|models|, i requires 0 <= i < |models| => QueryOutcome(models[i], messages, createApi, sendApi));
    Gather.ZipToMapKeys(models, responses);
    var f := m => QueryOutcome(m, messages, createApi, sendApi);
    assert forall m :: m in models ==> Gather.ZipToMap(models, responses)[m] == f(m) by {
      forall m | m in models ensures Gather.ZipToMap(models, responses)[m] == f(m) {
        Gather.ZipToMapOfFunction(models, responses, f, m);
      }
    }
    Gather.ZipToMap(models, responses)
  }
}
