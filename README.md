# LLM Council backend clients, modelled in Dafny

This project models the deterministic core of the LLM Council backend's model
clients and its configuration check:

- **OpenCode serve client wrapper** (`backend/opencode_client_wrapper.py`,
  module `OpencodeClient`). For each query it creates a session and splits a
  role-tagged message list into a system prompt and one conversation text. It
  sends these and joins the text parts of the response into the reply. The
  request builders of `create_session` and `send_message` add optional fields
  only when they are truthy. The parallel query maps each model to its reply.
- **OpenCode Zen HTTP client** (`backend/opencode_zen.py`, module
  `OpencodeZen`). It picks the endpoint from the model name and builds the
  headers and payload. It reads `content` and `reasoning_details` from the
  first choice of the JSON reply, and any failure gives None.
- **Configuration** (`backend/config.py`, module `Config`). `validate_config`
  runs its checks in a fixed order, and `get_config_info` summarises them.

Shared modules:
- `Wrappers`: `Option`.
- `PyStr`: the Python string built-ins the code uses (`strip`, `"\n".join`,
  `in`, `lower`, and integer formatting in f-strings). Each comes with lemmas
  that characterise it: a split undoes a join, the scan for a substring is
  equivalent to an occurrence, and decimal formatting can be read back.
- `Messages`: a chat message whose `role` and `content` keys may be absent.
- `Gather`: the dictionary comprehension over `zip(models, responses)` that
  both clients use.

The generated OpenCode API client and the HTTP transport become function
parameters (`CreateApi`, `SendApi`, `Post`). A None result from one of them
stands for a failed call. The environment settings become plain parameters.
`query_model` of the client wrapper is imperative in the source: `+=` over the
messages and `append` over the parts. So it is the method `QueryModel`, built
from the loops `FormatConversation` and `ExtractContent`. It is proved equal to
the function `QueryOutcome`, and the lemmas are about that function. The
parallel queries are taken one after another, as a map over the models.

Some source conditions are plain definitions with no contract of their own. They
appear inside the contracts listed below. Line numbers without a file are in
`backend/opencode_client_wrapper.py`.
- `OpencodeClient.SessionOk` is `session and 'id' in session`.
- `OpencodeClient.ResponseOk` is `if not response`, negated.
- `Messages.IsSystem` is the role test of lines 197-198.
- `OpencodeZen.IsSuccess` is the 2xx range that `raise_for_status` lets through (`backend/opencode_zen.py` line 50).
- `OpencodeClient.SessionOf` is the `create_session` call of line 188.
- `OpencodeClient.SessionTitle` is the `f"Council query: {model}"` title of line 188.
- `OpencodeZen.Get` is `message.get(key)` of `backend/opencode_zen.py` lines 56-57, with `JNull` for None.
- `Wrappers.Option.GetOr` is `dict.get(key, default)`, as in `msg.get("role", "user")` and `msg.get("content", "")` of lines 203-204.
- `PyStr.Truthy` is Python's truth test of an optional string, as in `if title:`, `if model:`, `if system:` and `if not OPENCODE_API_KEY`.
- `PyStr.IsSpace` is `str.isspace`, which decides what `strip()` removes at line 214. It holds for exactly these code points: U+0009-U+000D, U+001C-U+0020, U+0085, U+00A0, U+1680, U+2000-U+200A, U+2028, U+2029, U+202F, U+205F and U+3000.

## Model

| member | source | states |
|---|---|---|
| `OpencodeClient.BuildSessionRequest` | backend/opencode_client_wrapper.py:80-91 | `title` and `parent_id` are in the request exactly when truthy, with their given values; the request is None exactly when neither is truthy |
| `OpencodeClient.BuildSendRequest` | backend/opencode_client_wrapper.py:128-139 | the request always has one text part holding the text and `no_reply` false; `model` and `system` are present exactly when truthy, with their given values |
| `OpencodeClient.SystemMessages` | backend/opencode_client_wrapper.py:197 | the system contents exist exactly when every system message has content (else the KeyError); there are no more of them than messages |
| `OpencodeClient.SystemMessagesAppend` | backend/opencode_client_wrapper.py:197 | the system contents of a concatenation are those of the first part followed by those of the second; an error in either part is an error for the whole |
| `OpencodeClient.SystemMessagesSingle` | backend/opencode_client_wrapper.py:197 | a system message contributes its content, or the error when it has none; any other message contributes nothing |
| `OpencodeClient.ConversationMessages` | backend/opencode_client_wrapper.py:198 | every kept message is a non-system message of the input |
| `OpencodeClient.ConversationMessagesAppend` | backend/opencode_client_wrapper.py:198 | filtering keeps the relative order: the kept messages of a concatenation are those of each part in turn |
| `OpencodeClient.ConversationMessagesSingle` | backend/opencode_client_wrapper.py:198 | a non-system message is kept, including one with no role; a system message is dropped |
| `OpencodeClient.SplitPartitions` | backend/opencode_client_wrapper.py:197-198 | every message goes to exactly one of the two lists: the two lengths add up to the number of messages |
| `OpencodeClient.Contribution` | backend/opencode_client_wrapper.py:203-208 | a system message adds nothing; whatever a message adds is empty or ends with a newline |
| `OpencodeClient.ConversationText` | backend/opencode_client_wrapper.py:198-208 | with no non-system messages the text is empty; otherwise it is empty or ends with a newline, the trailing newline `strip` removes |
| `OpencodeClient.ConversationTextAppend` | backend/opencode_client_wrapper.py:201-208 | the conversation text of a concatenation is the text of the first part followed by that of the second |
| `OpencodeClient.ConversationTextSingle` | backend/opencode_client_wrapper.py:203-208 | a user message or one with no role adds `content + "\n"`; an assistant message adds `"Assistant: " + content + "\n"`; any other role adds nothing; missing content reads as "" |
| `OpencodeClient.ConversationTextIgnoresSystem` | backend/opencode_client_wrapper.py:198-208 | the text of the filtered list equals the per-message contributions over the whole list, so the order of the input is the order of the text |
| `OpencodeClient.FormatConversation` | backend/opencode_client_wrapper.py:201-208 | the `+=` loop produces exactly the contributions of the messages, in order |
| `OpencodeClient.SystemPrompt` | backend/opencode_client_wrapper.py:211 | the prompt is absent exactly when there are no system messages |
| `OpencodeClient.SystemPromptRecoverable` | backend/opencode_client_wrapper.py:211 | when no system content contains a newline, splitting the prompt on "\n" gives back the system contents in order |
| `OpencodeClient.SentRequest` | backend/opencode_client_wrapper.py:210-218 | the request holds one text part with the stripped conversation text and `no_reply` false; the model is sent exactly when non-empty and the system prompt exactly when truthy, each with its value |
| `OpencodeClient.SentRequestShape` | backend/opencode_client_wrapper.py:210-218 | the text sent is the stripped conversation: it never begins or ends with whitespace, so never with the last message's "\n"; `system` is sent exactly when the system contents join to a non-empty text |
| `OpencodeClient.PrepareRequest` | backend/opencode_client_wrapper.py:196-218 | there is no request exactly when a system message lacks content; otherwise the request is the one built from the stripped conversation text, the model and the system prompt |
| `OpencodeClient.TextParts` | backend/opencode_client_wrapper.py:225-232 | there are no more texts than parts |
| `OpencodeClient.TextPartsAppend` | backend/opencode_client_wrapper.py:226-232 | the texts of a concatenation of part lists are those of each list in turn |
| `OpencodeClient.TextPartsSingle` | backend/opencode_client_wrapper.py:228-232 | a part of type "text" gives its text, or "" when the text is missing; any other part gives nothing |
| `OpencodeClient.ExtractedContentRecoverable` | backend/opencode_client_wrapper.py:234 | zero text parts give ""; when no text contains a newline, splitting the content on "\n" gives back the texts in order |
| `OpencodeClient.ExtractContent` | backend/opencode_client_wrapper.py:225-234 | the append loop and the join give the texts of exactly the "text" parts, in order, joined by "\n" |
| `OpencodeClient.ReplyOf` | backend/opencode_client_wrapper.py:220-239 | a reply exists exactly when the response is present and non-empty; it never has reasoning details; with no text parts its content is "" |
| `OpencodeClient.ReadReply` | backend/opencode_client_wrapper.py:220-239 | the method computes `ReplyOf` of the response |
| `OpencodeClient.QueryOutcome` | backend/opencode_client_wrapper.py:186-245 | None exactly when the session is missing or has no id, a system message has no content, or the send of the built request gives no or an empty response; a reply never has reasoning details |
| `OpencodeClient.QueryModel` | backend/opencode_client_wrapper.py:168-245 | the method, with its loops, computes `QueryOutcome` |
| `OpencodeClient.QueryModelsParallel` | backend/opencode_client_wrapper.py:263-269 | the keys are exactly the given models, and each model is mapped to the outcome of its own query |
| `Gather.ZipToMap` | backend/opencode_client_wrapper.py:269 | the keys are those zipped (up to the shorter list); each key is mapped to the value at its last position, so with duplicate identifiers the later position wins |
| `Gather.ZipToMapKeys` | backend/opencode_zen.py:86 | with lists of the same length the key set is exactly the set of models |
| `Gather.ZipToMapDistinct` | backend/opencode_zen.py:86 | with distinct models, each is mapped to the response at its own index |
| `Gather.ZipToMapOfFunction` | backend/opencode_client_wrapper.py:263-269 | when every response is a function of its model, each model is mapped to that function's value |
| `PyStr.TrimStart` | backend/opencode_client_wrapper.py:214 | the result is a suffix of the input that starts with a non-whitespace character (or is empty), and everything dropped is whitespace |
| `PyStr.TrimEnd` | backend/opencode_client_wrapper.py:214 | the result is a prefix of the input that ends with a non-whitespace character (or is empty), and everything dropped is whitespace |
| `PyStr.Strip` | backend/opencode_client_wrapper.py:214 | the result is no longer than the input and has no whitespace at either end |
| `PyStr.StripSlice` | backend/opencode_client_wrapper.py:214 | the stripped text is a contiguous slice of the input, and everything before and after that slice is whitespace |
| `PyStr.StripIdempotent` | backend/opencode_client_wrapper.py:214 | stripping twice is stripping once |
| `PyStr.Join` | backend/opencode_client_wrapper.py:211 | an empty list joins to "" and a single element to itself |
| `PyStr.SplitJoin` | backend/opencode_client_wrapper.py:211 | splitting a join on its separator character gives back the pieces when none of them contains that character |
| `PyStr.Contains` | backend/opencode_zen.py:38 | a substring that is found is no longer than the string searched |
| `PyStr.ContainsIff` | backend/opencode_zen.py:38 | the substring scan succeeds exactly when the substring occurs at some offset |
| `PyStr.Lower` | backend/opencode_zen.py:38 | the lower-cased string has the same length, with each character lower-cased in place |
| `PyStr.NatToString` | backend/config.py:49 | the text of a number is a non-empty string of decimal digits with no leading zero |
| `PyStr.NatToStringRoundTrip` | backend/config.py:49 | reading the digits back gives the number that was formatted |
| `PyStr.IntToString` | backend/config.py:49 | a number that is not negative is formatted as its digits, a negative one as "-" and the digits of its magnitude; the text is never empty |
| `PyStr.ConcatMapAppend` | backend/opencode_client_wrapper.py:201-208 | what the loop accumulates over a concatenation is what it accumulates over each part in turn |
| `PyStr.ConcatMapEndsWith` | backend/opencode_client_wrapper.py:201-208 | when every piece the loop adds is empty or ends with a given character, so is the accumulated text |
| `OpencodeZen.Endpoint` | backend/opencode_zen.py:38-41 | the endpoint is the base URL plus "/messages" exactly when the lower-cased model identifier contains "claude", and plus "/responses" exactly when it does not |
| `OpencodeZen.EndpointIgnoresCase` | backend/opencode_zen.py:38 | the endpoint is the same for a model name and its lower-cased form |
| `OpencodeZen.EndpointByOccurrence` | backend/opencode_zen.py:38-41 | the endpoint is "/messages" exactly when "claude" occurs at some offset of the lower-cased name |
| `OpencodeZen.Headers` | backend/opencode_zen.py:25-28 | the headers are exactly `Authorization: "Bearer " + key` and `Content-Type: application/json` |
| `OpencodeZen.BearerValue` | backend/opencode_zen.py:26 | the value starts with "Bearer "; a set key follows it unchanged, an unset key follows it as the text "None" |
| `OpencodeZen.Request` | backend/opencode_zen.py:25-49 | the POST goes to the chosen endpoint, with the two headers and a payload of exactly the model and the unmodified messages |
| `OpencodeZen.ReplyOf` | backend/opencode_zen.py:52-58 | a reply exists exactly when `data['choices'][0]['message']` is an object, and its `content` and `reasoning_details` are that message's values, each None when missing |
| `OpencodeZen.FirstMessage` | backend/opencode_zen.py:53 | the lookup `data['choices'][0]['message']` succeeds with an object exactly when the body is an object with `choices`, that is a non-empty list, its first element is an object with `message`, and that is an object; the result is then that message |
| `OpencodeZen.ReplyOfFirstChoice` | backend/opencode_zen.py:53-58 | for any body whose `choices` list starts with a choice holding a message object, whatever other keys the body and the choice carry and whatever choices follow, the reply is that message's `content` and `reasoning_details` |
| `OpencodeZen.ReplyOfNoMessage` | backend/opencode_zen.py:53-62 | a first choice that is not an object, lacks `message`, or has a `message` that is not an object (where `.get` raises) gives None |
| `OpencodeZen.ReplyOfNoChoices` | backend/opencode_zen.py:52-62 | a body that is not an object, has no `choices`, or whose `choices` is not a non-empty list gives None |
| `OpencodeZen.QueryModel` | backend/opencode_zen.py:43-62 | a reply exists exactly when the POST succeeds with a 2xx status, the body parses as JSON, and it holds a first choice with a message object; the reply is then the one read from that body |
| `OpencodeZen.QueryModelsParallel` | backend/opencode_zen.py:80-86 | the keys are exactly the given models, and each model is mapped to the outcome of its own query |
| `Config.ValidateConfig` | backend/config.py:35-54 | valid exactly when the key is set, the council is non-empty and at least the minimum, and the chairman is set; the message is empty exactly when the result is valid |
| `Config.MessagesDistinct` | backend/config.py:42-52 | the fixed messages for the key, the empty council and the chairman are pairwise different |
| `Config.FirstFailingCheckWins` | backend/config.py:42-52 | a missing key gives the key message whatever else holds; with a key, an empty council gives its own message and not the size message; then a council below the minimum gives the size message; then a missing chairman gives the chairman message |
| `Config.ValidIffWithPositiveMinimum` | backend/config.py:42-54 | with a positive minimum (the configured 2), the result is `(True, "")` exactly when the key is set, the council reaches the minimum and the chairman is set |
| `Config.TooFewMessage` | backend/config.py:49 | the size message starts with "At least " and the minimum in decimal, ends with " configured.", and has the decimal digits of the council size just before that |
| `Config.TooFewMessageReportsCount` | backend/config.py:49 | the digits before " configured." read back to the council size |
| `Config.TooFewMessageReportsMinimum` | backend/config.py:49 | for a minimum that is not negative, the digits right after "At least " read back to the minimum |
| `Config.DefaultConfigValid` | backend/config.py:16-54 | with the shipped five-model council, its chairman and `MIN_COUNCIL_MODELS` of 2, the configuration is valid exactly when the key is set, and otherwise reported by the key message |
| `Config.GetConfigInfo` | backend/config.py:57-70 | the count is the council's length, the settings are passed through, and `is_valid` is the first component of `validate_config` |

## Left out

- `Gather.ZipToMap`: the result is an unordered `map`. The key order of the Python dict, which follows each model's first occurrence in the list, is not modelled.
- Concurrency: `asyncio.gather`, `run_in_executor` and the event loop. Parallel queries are taken sequentially. Deterministic API parameters give the same outcome for a repeated model, so the later-position-wins behaviour is stated only for `Gather.ZipToMap` over arbitrary responses.
- Network and foreign code: the generated OpenCode client, `httpx.AsyncClient`, `get_api_client` and `check_health` are external. Their results are parameters.
- `raise_for_status` is taken to reject every status outside 200-299. That is how httpx defines it; the library is not part of this model.
- Runtime reflection (`hasattr` and `to_dict`) and the `sys.path` import setup are left out. A session, a response and a part are datatypes. The dict branch and the object branch of the part loop behave the same, so they are one case.
- `OpencodeClient.MessageResponse` keeps only the `info` and `parts` keys. A converted response with only other keys is truthy in Python but cannot be written in this model.
- Explicit nulls are not modelled. An `Option` None stands for a missing key, so a key present with the value None cannot be written. This affects:
  - message `role` and `content`, which are taken to be strings when present;
  - the session's `id`: in Python, `{'id': None}` passes the check at line 189 and sends with a None id;
  - the response's `parts`: in Python, `"parts": None` makes the loop at line 227 raise, so the result is None, while the model reads a missing `parts` as `[]`.
- JSON numbers are integers in `OpencodeZen.Json`. Floating point is not modelled.
- `PyStr.Lower` lower-cases ASCII letters only. No other character lower-cases to a letter of "claude", so the endpoint test is unaffected.
- Timeouts are not modelled. `send_message` ignores its timeout anyway. Printing and tracebacks are left out too.
- `load_dotenv`/`os.getenv`, `DATA_DIR` and the `OPENCODE_SERVER_*` settings become parameters or are left out. The shipped council, chairman and minimum are constants, used only by `Config.DefaultConfigValid`; the other members take the settings as parameters.
- `Config.MessagesDistinct` does not compare the size message with the fixed messages. Dafny does not expand long string literals character by character, so the fixed messages are told apart only by their lengths.
- The empty-council message says "At least 2" literally rather than using the minimum. It is modelled as written.
- The ranking parser, the aggregator and the three-stage deliberation orchestrator are not part of this model; their source is not among the modelled files.
