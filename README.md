# Agent platform wire handling, modelled in Dafny

This project models the client-side wire handling around agent execution in
the agent platform. It also models the small pure helpers next to it:

- **Decoding the agent stream.** `executeAgentStream` decodes it: a carry
  buffer, a split on blank lines, and `data:` frames with the sentinels
  `[DONE]` and `[ERROR]`.
- **Encoding the agent stream.** The server's `event_generator` produces it.
- **Key spelling.** The API client converts keys between caller spelling
  (`userInput`) and wire spelling (`user_input`). It does so recursively on
  every JSON body (`transformKeys`). It also picks the error message of
  `apiClient`.
- **Agent routes.** The backend's `404 Agent not found` guards, and the
  body validation applied before a handler runs.
- **The chat turn** of `ChatInterface`.
- **The agent form** of `AgentForm`: initial values, validation and
  payload.
- **The n8n catalog tools:**
  - `searchNodes`, `getNodeDetails`, `listCategories` and the `getNodes`
    cache;
  - `generateMarkdown`, `generateSkill` and `batchGenerateSkills`.
- **`extract_video_id`** of the YouTube transcript script.

Files:

| file | module | models |
|---|---|---|
| wrappers.dfy | Wrappers | `Option` and `Result` |
| text.dfy | Text | ASCII case, `startsWith`/`includes`, `trim`, UTF-16 length, `join`, integer rendering |
| json.dfy | JsonValue | parsed JSON values; objects as member sequences; property assignment and reading |
| key_case.dfy | KeyCase | `camelToSnake`, `snakeToCamel` |
| normalize.dfy | Normalize | `transformKeys` |
| api_client.dfy | ApiClient | request body, error message and response handling of `apiClient` |
| stream_decoder.dfy | StreamDecoding | the frame decoder of `executeAgentStream` |
| stream_encoder.dfy | FrameEncoding | `event_generator` and the encode/decode round trip |
| agent_routes.dfy | AgentRoutes | the agent routes' status decisions |
| agent_stream.dfy | AgentStreaming | one streamed execution end to end, as written and corrected |
| chat.dfy | Chat | `handleSubmit` of the chat component |
| agent_form.dfy | AgentForm | `handleSubmit` and the initial state of the agent form |
| nodes.dfy | N8nNodes | the catalog records and the lookup by name |
| node_catalog.dfy | NodeCatalog | the catalog queries |
| skill_markdown.dfy | SkillMarkdown | the skill generator |
| video_id.dfy | VideoId | `extract_video_id` |

Code that updates state step by step is modelled as methods with loops or
as classes, each proved against a specification function. That covers:

- the decoder's loop and its carry buffer (class `FrameDecoder`);
- the chat component's fields (class `ChatInterface`);
- the form's fields (class `AgentFormComponent`);
- the `nodesCache` (class `NodeStore`);
- the `Map` loop of `listCategories`;
- the `lines.push` sequence of `generateMarkdown`;
- the `results` loop of the batch;
- the `for` loop that fills the object in `transformKeys`;
- the generator loop of `event_generator`.

Pure code is modelled as functions and lemmas.

Details of the code that the model follows exactly:

- `camelToSnake` also rewrites a capital in first position.
- The decoder matches `data: ` on the whole frame and takes the whole rest
  of the frame as the payload, not its first data line.
- The streaming request body is sent without key conversion.
- An error body's `message` or `detail` is used only when it is truthy. A
  `null` error body makes `apiClient` throw a `TypeError`.

## Model

| member | source | states |
|---|---|---|
| Text.Lower | skills/n8n-mcp-server/src/tools/search.ts:200-206 | `toLowerCase` keeps the length and lower-cases each ASCII capital, leaving every other character as it is |
| Text.Trim | frontend/src/components/features/agent/AgentForm.tsx:51-53 | `trim` returns a slice of its input that neither begins nor ends with JavaScript whitespace; it is empty exactly when the input is all whitespace |
| Text.Utf16Length | frontend/src/components/features/agent/AgentForm.tsx:44 | `length` counts UTF-16 code units: at least one and at most two per character |
| Text.IntToString | skills/n8n-mcp-server/src/tools/generate-skill.ts:28 | a version renders as a non-empty decimal text that starts with `-` exactly for negative numbers |
| Text.EmptyOccursEverywhere | skills/n8n-mcp-server/src/tools/search.ts:204-206 | `includes("")` holds for every string |
| JsonValue.KeyIndex | frontend/src/lib/api/client.ts:31 | finds the position of an existing key; finds none exactly when the key is absent |
| JsonValue.Put | frontend/src/lib/api/client.ts:31 | `result[key] = value`: an existing key keeps its place and takes the new value, a new key is appended, other members are untouched, keys stay distinct |
| JsonValue.Get | frontend/src/lib/api/client.ts:67 | reading a property gives a value of a member with that key, and nothing exactly when the key is absent |
| JsonValue.GetIsLast | frontend/src/lib/api/client.ts:67 | the value read is that of the last member with the key: a member with the key that no later member repeats gives the result |
| KeyCase.CamelToSnake | frontend/src/lib/api/client.ts:17-19 | the result has no ASCII capital; a leading capital becomes a leading `_`, and any other first character is kept |
| KeyCase.SnakeToCamel | frontend/src/lib/api/client.ts:13-15 | the result has no `_` followed by a lower-case letter; it starts with a lower-case letter exactly when the input does |
| KeyCase.CamelToSnakeAppend | frontend/src/lib/api/client.ts:18 | the global replace works character by character: it distributes over concatenation |
| KeyCase.CamelToSnakeChar | frontend/src/lib/api/client.ts:18 | a capital `X` becomes `_x`; any other character stays |
| KeyCase.SnakeToCamelAppend | frontend/src/lib/api/client.ts:14 | the left-to-right replace distributes over a cut that does not fall right after `_` |
| KeyCase.CamelToSnakeKeepsWireKey | frontend/src/lib/api/client.ts:17-19 | a key without capitals is left unchanged |
| KeyCase.CamelToSnakeIdempotent | frontend/src/lib/api/client.ts:18 | applying `camelToSnake` twice equals applying it once |
| KeyCase.SnakeToCamelKeepsCallerKey | frontend/src/lib/api/client.ts:13-15 | a key without `_` before a lower-case letter is left unchanged |
| KeyCase.SnakeToCamelIdempotent | frontend/src/lib/api/client.ts:14 | applying `snakeToCamel` twice equals applying it once |
| KeyCase.CallerKeyRoundTrip | frontend/src/lib/api/client.ts:13-19 | `snakeToCamel(camelToSnake(k)) == k` for every key with no `_` directly before a lower-case letter |
| KeyCase.WireKeyRoundTrip | frontend/src/lib/api/client.ts:13-19 | `camelToSnake(snakeToCamel(w)) == w` for every key without capitals |
| KeyCase.CamelToSnakeOneCapital | frontend/src/lib/api/client.ts:17-19 | a key with one capital `U` between two keys without capitals becomes the same text with `_u` in its place |
| KeyCase.SnakeToCamelOneBoundary | frontend/src/lib/api/client.ts:13-15 | a key with one `_` before a lower-case `l`, between two keys without such a boundary and not right after another `_`, becomes the same text with `L` in place of `_l` |
| KeyCase.CamelToSnakeInjective | frontend/src/lib/api/client.ts:17-19 | `camelToSnake` never maps two caller-spelled keys to the same wire key |
| Normalize.Renamed | frontend/src/lib/api/client.ts:30-31 | the entries of an object, in order, each with its key renamed and its value converted |
| Normalize.Assign | frontend/src/lib/api/client.ts:29-33 | building `result` entry by entry yields an object with distinct keys |
| Normalize.Transform | frontend/src/lib/api/client.ts:21-36 | arrays stay arrays of the same length, objects stay objects, and every other value is returned unchanged |
| Normalize.TransformKeys | frontend/src/lib/api/client.ts:21-36 | the recursive method with its loops computes exactly `Transform` |
| Normalize.TransformItems | frontend/src/lib/api/client.ts:25-27 | arrays are converted element by element, keeping length and order |
| Normalize.TransformMembers | frontend/src/lib/api/client.ts:28-33 | the `for` loop over `Object.entries` builds exactly the assigned object |
| Normalize.AssignSnoc | frontend/src/lib/api/client.ts:30-31 | each loop pass performs one more property assignment |
| Normalize.AssignLaterWins | frontend/src/lib/api/client.ts:30-32 | when two entries are renamed to the same key, reading that key gives the later entry's value |
| Normalize.PutThenGet | frontend/src/lib/api/client.ts:31 | after `result[key] = value`, reading `key` gives `value` |
| Normalize.PutOtherKey | frontend/src/lib/api/client.ts:31 | an assignment does not change any other key's value |
| Normalize.AssignUnique | frontend/src/lib/api/client.ts:29-33 | entries that already have distinct keys are rebuilt unchanged, in order |
| Normalize.AssignMemberFrom | frontend/src/lib/api/client.ts:29-33 | every member of the rebuilt object is one of the assigned entries |
| Normalize.RenameIdempotent | frontend/src/lib/api/client.ts:13-19 | renaming a renamed key again changes nothing, in either direction |
| Normalize.TransformReachesConvention | frontend/src/lib/api/client.ts:21-36 | after a conversion every object key at any depth is in the target spelling, and no object repeats a key |
| Normalize.TransformKeepsConvention | frontend/src/lib/api/client.ts:21-36 | a value already in the target spelling is returned unchanged |
| Normalize.TransformIdempotent | frontend/src/lib/api/client.ts:21-36 | converting twice to the same spelling equals converting once |
| Normalize.TransformRoundTrip | frontend/src/lib/api/client.ts:21-36 | converting there and back gives the value back whenever every key survives the two renamings |
| Normalize.CallerKeysSurviveWire | frontend/src/lib/api/client.ts:44-48 | a caller-spelled body converted to the wire and back is the original body |
| Normalize.WireKeysSurviveCaller | frontend/src/lib/api/client.ts:75-76 | a wire-spelled body converted to caller spelling and back is the original body |
| Normalize.CallerShapedRoundTrips | frontend/src/lib/api/client.ts:13-19 | every key of a caller-shaped value survives `camelToSnake` then `snakeToCamel` |
| Normalize.WireShapedRoundTrips | frontend/src/lib/api/client.ts:13-19 | every key of a wire-shaped value survives `snakeToCamel` then `camelToSnake` |
| ApiClient.PrepareBody | frontend/src/lib/api/client.ts:44-52 | only a non-empty string body that parses is re-serialised, in wire spelling, and it converts back to the parsed value; any other body goes out unchanged |
| ApiClient.CallerShapedSurvives | frontend/src/lib/api/client.ts:44-48 | the converted body of a caller-shaped value converts back to it |
| ApiClient.Property | frontend/src/lib/api/client.ts:64-67 | reading a property throws exactly on `null`; a found value is the object's member |
| ApiClient.ErrorMessage | frontend/src/lib/api/client.ts:67 | `error.message \|\| error.detail \|\| 'An error occurred'` is truthy, and throws exactly for a `null` body |
| ApiClient.HandleResponse | frontend/src/lib/api/client.ts:63-76 | succeeds exactly for an ok status with 204 or a parsable body; 204 gives no value; data comes back in caller spelling; a non-ok status gives an `ApiError` with that status and a truthy message, a `TypeError` for a `null` body, and an unparsable success body rejects |
| ApiClient.ErrorMessagePreference | frontend/src/lib/api/client.ts:63-68 | a truthy `message` wins, then a truthy `detail`, then the generic text; an unparsable error body gets the generic text |
| ApiClient.SuccessBodyConversion | frontend/src/lib/api/client.ts:71-76 | a success body is converted to caller spelling; a body already in it comes back unchanged; a wire-spelled body converts back |
| ApiClient.SampleRequestConversion | frontend/src/lib/api/client.ts:44-52 | `{"userInput":"hi"}` goes out as `{"user_input":"hi"}` |
| ApiClient.UserInputKey | frontend/src/lib/api/client.ts:18 | `camelToSnake("userInput") == "user_input"` |
| ApiClient.SingleMemberTransform | frontend/src/lib/api/client.ts:28-33 | a one-member object with a scalar value is converted by renaming its key |
| ApiClient.SampleResponseConversion | frontend/src/lib/api/client.ts:75-76 | `{"tokens_used":12}` comes back as `{"tokensUsed":12}` |
| ApiClient.TokensUsedKey | frontend/src/lib/api/client.ts:14 | `snakeToCamel("tokens_used") == "tokensUsed"` |
| ApiClient.SampleErrorResponse | frontend/src/lib/api/client.ts:63-68 | a 404 with `{"detail":"not found"}` is an `ApiError` with status 404 and message `not found` |
| AgentRoutes.RequireAgent | backend/app/api/v1/agents.py:25-32 | `get_agent` and `update_agent` give the found agent, and `404 Agent not found` exactly when there is none |
| AgentRoutes.DeleteAgent | backend/app/api/v1/agents.py:52-58 | `204` exactly when the agent was deleted, else `404 Agent not found` |
| AgentRoutes.GetExecutions | backend/app/api/v1/agents.py:71-78 | the executions are listed exactly when the agent exists, else `404` |
| AgentRoutes.ExecuteAgent | backend/app/api/v1/agents.py:61-68 | an invalid body is refused with 422; a `ValueError` becomes 404 with its message; other exceptions are 500; otherwise the output is returned |
| AgentRoutes.ExecuteAgentStream | backend/app/api/v1/agents.py:81-104 | frames are produced exactly when the body is valid and the agent exists; a missing agent is `404 Agent not found` with no frame; the frames are those of the run |
| AgentStreaming.StreamRequestBodyAsWritten | frontend/src/lib/api/agents.ts:54-60 | the streaming body is the input itself, still in caller spelling |
| AgentStreaming.AsWrittenRequestRefused | frontend/src/lib/api/agents.ts:59 | as written, every streamed execution is refused with 422, whatever the input, agent and service |
| AgentStreaming.StreamRequestBody | frontend/src/lib/api/agents.ts:54-60 | the corrected body is in wire spelling and converts back to the caller's input |
| AgentStreaming.CorrectedRequestAccepted | frontend/src/lib/api/agents.ts:44-47 | the corrected body is `{"user_input": …}`, equals what `executeAgent` sends through `apiClient`, and is accepted exactly for a non-empty input |
| AgentStreaming.WireInputValid | backend/app/api/v1/agents.py:82 | a body holding only `user_input` passes validation exactly when it is not empty |
| AgentStreaming.CorrectedBody | frontend/src/lib/api/agents.ts:59 | the corrected body of `{ userInput }` is `{"user_input": …}` |
| AgentStreaming.StreamTurnAsWritten | frontend/src/lib/api/agents.ts:54-64 | as written, the client always fails with `Failed to execute agent: Unprocessable Entity` and no token |
| AgentStreaming.StreamTurn | frontend/src/lib/api/agents.ts:50-95 | corrected: an empty input fails with the 422 text; a missing agent fails with `Not Found` before any token; otherwise the client yields the service's chunks and ends as the service did, for any cut of the wire text into reads |
| StreamDecoding.Split | frontend/src/lib/api/agents.ts:79 | `split("\n\n")` yields at least one piece |
| StreamDecoding.SplitJoin | frontend/src/lib/api/agents.ts:79 | joining the pieces with the separator gives the text back, and no piece holds the separator |
| StreamDecoding.SplitAppend | frontend/src/lib/api/agents.ts:78-80 | complete frames stay complete when text is appended; the rest comes from the carry plus the new text |
| StreamDecoding.SplitAppendSeparator | frontend/src/lib/api/agents.ts:78-80 | the same, for a text that starts with the separator |
| StreamDecoding.SplitAppendChar | frontend/src/lib/api/agents.ts:78-80 | the same, for a text that starts with any other character |
| StreamDecoding.NoSeparatorAfterChar | frontend/src/lib/api/agents.ts:79 | a character that does not start a separator, put before a separator-free piece, leaves it separator-free |
| StreamDecoding.Slice | frontend/src/lib/api/agents.ts:89 | `slice(8)` is the suffix when it exists, else empty |
| StreamDecoding.Classify | frontend/src/lib/api/agents.ts:83-91 | a frame is a token exactly when it starts with `data: ` and its payload is neither `[DONE]` nor starts with `[ERROR]`; the token is the whole rest of the frame; it finishes exactly on `data: [DONE]`; it fails exactly when it starts with `data: [ERROR]`, carrying the frame's text from index 14 on (the payload with 8 characters removed); any other frame is skipped exactly when it lacks the `data: ` prefix |
| StreamDecoding.Process | frontend/src/lib/api/agents.ts:82-93 | processing frames yields at most one token per frame |
| StreamDecoding.ProcessAppend | frontend/src/lib/api/agents.ts:82-93 | a second batch of frames is consumed only while the first left the stream open; once it has ended or failed, nothing later counts |
| StreamDecoding.ProcessTokensFromFrames | frontend/src/lib/api/agents.ts:82-93 | every token is the payload of some complete data frame and is neither sentinel |
| StreamDecoding.DecodeStream | frontend/src/lib/api/agents.ts:74-94 | the stream always ends: when its complete frames end or fail it, the outcome is exactly that of processing them; when they leave it open, it completes with their tokens; the carry is never emitted |
| StreamDecoding.NoTerminalStaysOpen | frontend/src/lib/api/agents.ts:82-93 | frames none of which is `data: [DONE]` or starts with `data: [ERROR]` leave the stream open |
| StreamDecoding.StopsAtFirstTerminal | frontend/src/lib/api/agents.ts:82-93 | the first terminal frame decides: the tokens are those of the frames before it; `data: [DONE]` completes the stream, an `[ERROR]` frame fails it with its text from index 14 on, and no later frame counts |
| StreamDecoding.ClosedIgnoresRest | frontend/src/lib/api/agents.ts:85-89 | after `[DONE]` or `[ERROR]`, no later text changes the outcome, even in the same read |
| StreamDecoding.OpenExtends | frontend/src/lib/api/agents.ts:74-94 | while the stream is open, more text only adds tokens at the end |
| StreamDecoding.FrameDecoder.constructor | frontend/src/lib/api/agents.ts:71-72 | the buffer starts empty and the stream open |
| StreamDecoding.FrameDecoder.Feed | frontend/src/lib/api/agents.ts:75-93 | one read keeps the invariant: after it, tokens, status and carry are those of the reference decoding of all text received so far |
| StreamDecoding.FeedStep | frontend/src/lib/api/agents.ts:78-80 | splitting carry plus chunk continues the split of everything received |
| StreamDecoding.ProcessFrames | frontend/src/lib/api/agents.ts:82-93 | the inner loop with its early `return`/`throw` computes exactly `Process` |
| StreamDecoding.DecodeChunks | frontend/src/lib/api/agents.ts:74-94 | the outcome depends only on the concatenation of the reads, not on where they are cut |
| StreamDecoding.ExecuteAgentStream | frontend/src/lib/api/agents.ts:62-94 | a non-ok response throws `Failed to execute agent: <statusText>` before any token; a missing reader throws `Response body is not readable`; otherwise the body is decoded |
| FrameEncoding.FramesShape | backend/app/api/v1/agents.py:89-95 | one frame per chunk, in order, then exactly one `[DONE]` frame, or the error frame if the service raised |
| FrameEncoding.EventGenerator | backend/app/api/v1/agents.py:89-95 | the generator loop yields exactly those frames |
| FrameEncoding.NoLineFeedFramable | backend/app/api/v1/agents.py:92 | a payload without line feeds is carried intact by the framing |
| FrameEncoding.PrefixKeepsFramable | backend/app/api/v1/agents.py:92-95 | prefixes such as `data: ` and `[ERROR] ` keep a payload framable |
| FrameEncoding.SplitFrame | backend/app/api/v1/agents.py:92 | a framable payload followed by the separator is cut exactly there |
| FrameEncoding.SplitWire | backend/app/api/v1/agents.py:89-95 | the wire text of a carriable run splits into one piece per frame, minus the separator, and an empty carry |
| FrameEncoding.ProcessBodies | backend/app/api/v1/agents.py:92-95 | those pieces decode to the run's chunks and its ending |
| FrameEncoding.RoundTrip | backend/app/api/v1/agents.py:89-95 | decoding inverts encoding for chunks without a blank line, without a final line feed and not taken for a sentinel: the client gets exactly the chunks, then the end or `str(e)` |
| FrameEncoding.ReceiveRun | frontend/src/lib/api/agents.ts:74-94 | the wire text, received in any cut into reads, decodes to the run |
| FrameEncoding.SplitTokenScenario | frontend/src/lib/api/agents.ts:78-87 | the reads `data: Hel`, `lo\n\n`, `data: [DONE]\n\n` yield the one token `Hello` and end the stream |
| FrameEncoding.ScenarioWire | backend/app/api/v1/agents.py:92-93 | those three reads are the wire text of the run that yields `Hello` |
| FrameEncoding.ErrorFrameScenario | frontend/src/lib/api/agents.ts:88-90 | `data: [ERROR] rate limited\n\n` yields no token and fails with `rate limited` |
| FrameEncoding.ErrorWire | backend/app/api/v1/agents.py:95 | that text is the error frame for `rate limited` |
| FrameEncoding.TrailingLineFeedIsLost | backend/app/api/v1/agents.py:92 | the final-line-feed condition is needed: the chunk `a\n` arrives as `a`, and the `[DONE]` frame after it is skipped |
| FrameEncoding.LineFeedChunk | frontend/src/lib/api/agents.ts:82-84 | that wire text yields the single token `a` |
| FrameEncoding.LineFeedWire | backend/app/api/v1/agents.py:92-93 | that wire text splits into `data: a`, a frame starting with a line feed, and an empty carry |
| FrameEncoding.LeadingLineFeed | backend/app/api/v1/agents.py:93 | a stray line feed before a framable text that does not start with one keeps it framable |
| Chat.WithLastExtended | frontend/src/components/features/agent/ChatInterface.tsx:43-51 | a token changes only the last message, extending its content; the length and the earlier messages are unchanged |
| Chat.ExtendByNothing | frontend/src/components/features/agent/ChatInterface.tsx:42-51 | no tokens leave the messages unchanged |
| Chat.ExtendTwice | frontend/src/components/features/agent/ChatInterface.tsx:42-51 | two tokens in a row extend the last message by both, in order |
| Chat.Submit | frontend/src/components/features/agent/ChatInterface.tsx:28-59 | ignored when the trimmed input is empty or a stream runs; otherwise input cleared and streaming off; a user message with the trimmed text; on success an assistant message with all tokens concatenated and no error; on failure the partial reply removed and the error shown |
| Chat.SubmitKeepsHistory | frontend/src/components/features/agent/ChatInterface.tsx:36-55 | earlier messages are kept, and a turn adds at most two |
| Chat.ChatInterface.constructor | frontend/src/components/features/agent/ChatInterface.tsx:18-21 | no messages, empty input, not streaming, no error |
| Chat.ChatInterface.AppendChunk | frontend/src/components/features/agent/ChatInterface.tsx:43-51 | one `setMessages` extends the last message and changes nothing else |
| Chat.ChatInterface.ReceiveTokens | frontend/src/components/features/agent/ChatInterface.tsx:42-52 | the `for await` loop extends the last message by the in-order concatenation of the tokens |
| Chat.ChatInterface.HandleSubmit | frontend/src/components/features/agent/ChatInterface.tsx:28-59 | the component's new state is exactly `Submit` of its old state |
| AgentForm.InitialFields | frontend/src/components/features/agent/AgentForm.tsx:30-33 | fields come from the edited agent, else they are empty; the model falls back to `claude-sonnet-4-20250514` and is never empty |
| AgentForm.PayloadOf | frontend/src/components/features/agent/AgentForm.tsx:50-55 | trimmed name and prompt, the selected model, and the trimmed description or `undefined` when it trims to empty |
| AgentForm.ValidateAsWritten | frontend/src/components/features/agent/AgentForm.tsx:40-47 | as written: an empty trimmed name is refused first, then an untrimmed prompt under 10 UTF-16 units; otherwise the payload |
| AgentForm.PaddedPromptPassesAsWritten | frontend/src/components/features/agent/AgentForm.tsx:44 | nine blanks and one character pass the check but submit a prompt that the create route refuses |
| AgentForm.TrimOfPadded | frontend/src/components/features/agent/AgentForm.tsx:53 | a text that is blank up to its last character trims to at most one character |
| AgentForm.Validate | frontend/src/components/features/agent/AgentForm.tsx:40-47 | corrected: the same order and messages, with the length of the trimmed prompt checked, counted in characters |
| AgentForm.ValidatedPayloadAccepted | frontend/src/components/features/agent/AgentForm.tsx:50-55 | every payload the corrected form submits meets the server's prompt constraint and has a non-empty trimmed name |
| AgentForm.TrimIdempotent | frontend/src/components/features/agent/AgentForm.tsx:51-53 | trimming twice is trimming once |
| AgentForm.ValidationsAgree | frontend/src/components/features/agent/AgentForm.tsx:44 | the two checks agree on prompts without surrounding blanks and without characters outside the Basic Multilingual Plane |
| AgentForm.Utf16LengthBmp | frontend/src/components/features/agent/AgentForm.tsx:44 | inside the Basic Multilingual Plane the JavaScript length is the number of characters |
| AgentForm.Submit | frontend/src/components/features/agent/AgentForm.tsx:36-60 | as written, with `ValidateAsWritten`: an invalid form shows the validation error without saving; navigation to `/agents` happens exactly after a resolved save; a rejection shows its message or `Failed to save agent`, without navigating; the fields are unchanged |
| AgentForm.PaddedPromptSubmittedAsWritten | frontend/src/components/features/agent/AgentForm.tsx:36-60 | as written, a form with a name and a prompt of nine blanks and one character is saved and navigates to `/agents`, although its payload's prompt is one the create route refuses |
| AgentForm.SubmitCorrected | frontend/src/components/features/agent/AgentForm.tsx:36-60 | corrected, with `Validate`: the same branches; navigation happens only after the corrected check passed and the save resolved |
| AgentForm.CorrectedSubmitAccepted | frontend/src/components/features/agent/AgentForm.tsx:36-60 | whenever the corrected form navigates, the payload it saved meets the create route's prompt constraint |
| AgentForm.AgentFormComponent.constructor | frontend/src/components/features/agent/AgentForm.tsx:30-34 | the initial fields, no error, no navigation |
| AgentForm.AgentFormComponent.HandleSubmit | frontend/src/components/features/agent/AgentForm.tsx:36-60 | the component, running the check as written, moves to exactly `Submit` of its old state |
| N8nNodes.FindNamed | skills/n8n-mcp-server/src/tools/search.ts:228-231 | `find` gives the first node whose name or display name equals the argument ignoring case, and none exactly when no node does |
| NodeCatalog.NodeStore.constructor | skills/n8n-mcp-server/src/tools/search.ts:188 | the cache starts empty |
| NodeCatalog.NodeStore.GetNodes | skills/n8n-mcp-server/src/tools/search.ts:190-195 | the first call caches the loaded list; every later call returns the cached list |
| NodeCatalog.Matching | skills/n8n-mcp-server/src/tools/search.ts:202-211 | the filter keeps exactly the catalog nodes that match the query and the category |
| NodeCatalog.MatchingAppend | skills/n8n-mcp-server/src/tools/search.ts:202-211 | the filter keeps catalog order |
| NodeCatalog.SliceEnd | skills/n8n-mcp-server/src/tools/search.ts:213 | `slice(0, limit)` keeps `min(limit, len)` elements, and a negative limit counts from the end |
| NodeCatalog.SearchNodes | skills/n8n-mcp-server/src/tools/search.ts:197-224 | `count` is the number of results; at most `limit` (default 10) results; each is the summary of a matching node |
| NodeCatalog.SearchIsPrefixOfMatches | skills/n8n-mcp-server/src/tools/search.ts:213-222 | the results are the first matches in catalog order, exactly as many as `slice(0, limit)` keeps of all matches (a negative limit counting from the end); when the limit does not cut, every match is reported |
| NodeCatalog.EmptyQueryMatchesAll | skills/n8n-mcp-server/src/tools/search.ts:203-208 | the empty query with no category matches every node |
| NodeCatalog.GetNodeDetails | skills/n8n-mcp-server/src/tools/search.ts:226-238 | the first node named by the argument ignoring case; otherwise, and exactly then, the `Node '<x>' not found` error |
| NodeCatalog.CountedCategoryOccurs | skills/n8n-mcp-server/src/tools/search.ts:244-246 | a category with a positive count belongs to some node |
| NodeCatalog.IndexOfName | skills/n8n-mcp-server/src/tools/search.ts:245 | finds the entry of a category, or reports that none exists |
| NodeCatalog.BumpFacts | skills/n8n-mcp-server/src/tools/search.ts:245 | one `set`: an existing category gains one in place, a new one goes last with count 1; the others are unchanged; the total grows by one |
| NodeCatalog.TallyDistinct | skills/n8n-mcp-server/src/tools/search.ts:244-246 | the map has one entry per category, with counts summing to the number of nodes |
| NodeCatalog.TallyCovers | skills/n8n-mcp-server/src/tools/search.ts:244-246 | every node's category has an entry |
| NodeCatalog.TallyCounts | skills/n8n-mcp-server/src/tools/search.ts:244-246 | each entry's count is the number of nodes in its category, and at least one |
| NodeCatalog.TallyFacts | skills/n8n-mcp-server/src/tools/search.ts:242-246 | the map holds the distinct categories with their exact counts, summing to the number of nodes |
| NodeCatalog.InsertPos | skills/n8n-mcp-server/src/tools/search.ts:251 | an entry is inserted after all entries with at least its count and before the first with less |
| NodeCatalog.Insert | skills/n8n-mcp-server/src/tools/search.ts:251 | inserting adds exactly that entry |
| NodeCatalog.InsertSorted | skills/n8n-mcp-server/src/tools/search.ts:251 | inserting keeps the entries ordered by non-increasing count |
| NodeCatalog.InsertSum | skills/n8n-mcp-server/src/tools/search.ts:251 | inserting adds the entry's count to the total |
| NodeCatalog.InsertDistinct | skills/n8n-mcp-server/src/tools/search.ts:251 | inserting a new category keeps the names distinct |
| NodeCatalog.SortByCount | skills/n8n-mcp-server/src/tools/search.ts:251 | the sort is a permutation, ordered by non-increasing count, with the same total |
| NodeCatalog.SortKeepsDistinct | skills/n8n-mcp-server/src/tools/search.ts:251 | sorting keeps the category names distinct |
| NodeCatalog.SortedTallyFacts | skills/n8n-mcp-server/src/tools/search.ts:240-253 | `listCategories` gives one entry per category in the catalog, each with its number of nodes, most frequent first, summing to the number of nodes |
| NodeCatalog.SortedCounts | skills/n8n-mcp-server/src/tools/search.ts:249-251 | after sorting, each count is still the number of nodes in its category |
| NodeCatalog.SortedCovers | skills/n8n-mcp-server/src/tools/search.ts:249-251 | after sorting, every node's category still has an entry |
| NodeCatalog.CountByCategory | skills/n8n-mcp-server/src/tools/search.ts:242-246 | the `Map` loop builds the tally, in first-insertion key order |
| NodeCatalog.ListCategories | skills/n8n-mcp-server/src/tools/search.ts:240-253 | the method returns exactly the sorted tally |
| NodeCatalog.BumpHolds | skills/n8n-mcp-server/src/tools/search.ts:245 | an update of the `Map` keeps it in step with the tally, for an existing or a new key |
| NodeCatalog.BumpExisting | skills/n8n-mcp-server/src/tools/search.ts:245 | an existing key keeps its place and gains one |
| NodeCatalog.BumpNew | skills/n8n-mcp-server/src/tools/search.ts:245 | a new key goes last with count 1 |
| SkillMarkdown.Filter | skills/n8n-mcp-server/src/tools/generate-skill.ts:42-43 | `filter` keeps exactly the elements that pass |
| SkillMarkdown.FilterAppend | skills/n8n-mcp-server/src/tools/generate-skill.ts:42-43 | `filter` keeps the original order |
| SkillMarkdown.FilterPartition | skills/n8n-mcp-server/src/tools/generate-skill.ts:42-43 | a filter and its complement together hold every element exactly as often as the list |
| SkillMarkdown.QuotedValues | skills/n8n-mcp-server/src/tools/generate-skill.ts:55 | one quoted value per option |
| SkillMarkdown.TemplateValue | skills/n8n-mcp-server/src/tools/generate-skill.ts:108 | `p.default ?? '<type>'`: the default unless it is `null` or `undefined`, else the placeholder; never `null` |
| SkillMarkdown.TemplateEntries | skills/n8n-mcp-server/src/tools/generate-skill.ts:105-109 | at most one entry per parameter |
| SkillMarkdown.PushParameter | skills/n8n-mcp-server/src/tools/generate-skill.ts:48-57 | the pushes for one parameter append exactly its block |
| SkillMarkdown.PushParameters | skills/n8n-mcp-server/src/tools/generate-skill.ts:48-58 | the parameter loop appends the blocks of all parameters, in order |
| SkillMarkdown.BlocksSnoc | skills/n8n-mcp-server/src/tools/generate-skill.ts:48-58 | one more loop pass appends one more block |
| SkillMarkdown.PushOverview | skills/n8n-mcp-server/src/tools/generate-skill.ts:17-35 | the pushes append exactly the header and the overview |
| SkillMarkdown.PushSection | skills/n8n-mcp-server/src/tools/generate-skill.ts:45-59 | a section appends its heading and blocks, or nothing for an empty list |
| SkillMarkdown.PushParameterSection | skills/n8n-mcp-server/src/tools/generate-skill.ts:38-79 | the parameter pushes append exactly the parameter lines |
| SkillMarkdown.PushExamples | skills/n8n-mcp-server/src/tools/generate-skill.ts:82-95 | the example loop appends exactly the example lines |
| SkillMarkdown.PushTemplateAndTips | skills/n8n-mcp-server/src/tools/generate-skill.ts:98-120 | the template and tips pushes append exactly their lines |
| SkillMarkdown.GenerateMarkdown | skills/n8n-mcp-server/src/tools/generate-skill.ts:14-123 | `generateMarkdown` returns the line list joined with line feeds |
| SkillMarkdown.JoinAppend | skills/n8n-mcp-server/src/tools/generate-skill.ts:122 | `join("\n")` of two non-empty lists is the two joins around one separator |
| SkillMarkdown.JoinHeader | skills/n8n-mcp-server/src/tools/generate-skill.ts:122 | joining the four header lines and the rest puts a separator after each header line |
| SkillMarkdown.MarkdownHeader | skills/n8n-mcp-server/src/tools/generate-skill.ts:18-21 | the document opens with `# n8n: <displayName>`, an empty line, `> <description>` and an empty line |
| SkillMarkdown.HeaderLines | skills/n8n-mcp-server/src/tools/generate-skill.ts:18-21 | the first four lines are the heading, an empty line, the quoted description and an empty line |
| SkillMarkdown.MarkdownAfterHeader | skills/n8n-mcp-server/src/tools/generate-skill.ts:18-22 | the document is the four header lines joined, followed by the rest of the lines |
| SkillMarkdown.OverviewLines | skills/n8n-mcp-server/src/tools/generate-skill.ts:24-35 | a Docs line exactly when there is documentation; a Credentials line, joined with `", "`, exactly when there are credentials; ` > subcategory` only when there is one |
| SkillMarkdown.OverviewLine | skills/n8n-mcp-server/src/tools/generate-skill.ts:29-34 | only the documentation line starts with the Docs label, and only the credentials line with the Credentials label |
| SkillMarkdown.ParamLineKinds | skills/n8n-mcp-server/src/tools/generate-skill.ts:49-76 | a block line is a heading, a labelled detail or empty; a Default line only in the Optional section and for a defined default |
| SkillMarkdown.ParamBlock | skills/n8n-mcp-server/src/tools/generate-skill.ts:64-76 | a block opens with the parameter's name and has a Default line exactly for an optional parameter with a defined default |
| SkillMarkdown.BlocksLines | skills/n8n-mcp-server/src/tools/generate-skill.ts:48-76 | all block lines are of those kinds, and the Required blocks have no Default line |
| SkillMarkdown.ParameterSplit | skills/n8n-mcp-server/src/tools/generate-skill.ts:42-43 | every parameter is in exactly one section, by whether `required` is truthy |
| SkillMarkdown.SectionHeadings | skills/n8n-mcp-server/src/tools/generate-skill.ts:45-63 | each section heading appears exactly when its list is not empty |
| SkillMarkdown.HeadingsDiffer | skills/n8n-mcp-server/src/tools/generate-skill.ts:46-62 | the section headings are not block lines, and they differ from each other and from `## Parameters` |
| SkillMarkdown.InSection | skills/n8n-mcp-server/src/tools/generate-skill.ts:45-62 | a line that is not a block line is in a section only as its heading |
| SkillMarkdown.RequiredShowsNoDefault | skills/n8n-mcp-server/src/tools/generate-skill.ts:45-57 | the Required section shows no Default line |
| SkillMarkdown.TemplateKeys | skills/n8n-mcp-server/src/tools/generate-skill.ts:105-109 | there is an entry per parameter that is required or has a defined default, and no other |
| SkillMarkdown.TemplateEntriesUnique | skills/n8n-mcp-server/src/tools/generate-skill.ts:105-109 | with distinct names the entries have distinct keys and hold each parameter's value |
| SkillMarkdown.TemplateParameters | skills/n8n-mcp-server/src/tools/generate-skill.ts:101-110 | the template's `parameters` has a key exactly for the parameters that are required or have a defined default; with distinct names each holds its default or `<type>` |
| SkillMarkdown.FileNameParts | skills/n8n-mcp-server/src/tools/generate-skill.ts:137 | the file name is `n8n-<name>.md`, so distinct names never share a file |
| SkillMarkdown.SelectTargets | skills/n8n-mcp-server/src/tools/generate-skill.ts:155-172 | a non-empty name list selects the nodes it names; otherwise `all` selects every node, and another category selects its nodes; with neither, the error |
| SkillMarkdown.BatchGenerateSkills | skills/n8n-mcp-server/src/tools/generate-skill.ts:151-195 | the selection error propagates; otherwise one result per target, in order, a success exactly when its file was written; `total` is the number of targets and `successful + failed == total` |
| SkillMarkdown.WriteAll | skills/n8n-mcp-server/src/tools/generate-skill.ts:176-186 | the loop records, for each target in order, its path on success and an empty path on failure |
| SkillMarkdown.TalliesAddUp | skills/n8n-mcp-server/src/tools/generate-skill.ts:188-191 | every result is counted once, as a success or as a failure |
| SkillMarkdown.GenerateSkill | skills/n8n-mcp-server/src/tools/generate-skill.ts:125-149 | the first node named by the argument, or the not-found error; the path is the given one if not empty, else `n8n-<name>.md` in the directory; the size is the document's UTF-16 length |
| VideoId.Prefix | usecases/youtube-transcript/main.py:14 | the three link prefixes of the first pattern |
| VideoId.DotIndex | usecases/youtube-transcript/main.py:14 | every prefix holds a `.` |
| VideoId.RunEnd | usecases/youtube-transcript/main.py:14 | the greedy run of characters other than `&`, line feed, `?`, `#` ends at the first such character or at the end |
| VideoId.FormAt | usecases/youtube-transcript/main.py:14 | the alternatives are tried in order at a position; none matches exactly when no prefix there is followed by a run character |
| VideoId.FirstMatch | usecases/youtube-transcript/main.py:17-18 | `re.search` finds the leftmost matching position, with no match before it |
| VideoId.ExtractVideoId | usecases/youtube-transcript/main.py:11-21 | the link pattern first, then the bare id (a final line feed allowed), else `ValueError` with its message; refused exactly when neither matches |
| VideoId.IdIsClean | usecases/youtube-transcript/main.py:14-15 | a returned id is not empty and holds none of `&`, `?`, `#` or a line feed |
| VideoId.LinkIdIsLeftmostRun | usecases/youtube-transcript/main.py:14-20 | a link's id is the whole run after a prefix at the leftmost matching position |
| VideoId.NoPrefixInIdText | usecases/youtube-transcript/main.py:13-16 | no link prefix occurs in a text of id characters and line feeds |
| VideoId.NoPrefixAt | usecases/youtube-transcript/main.py:14 | the `.` of a prefix rules it out at every position of such a text |
| VideoId.BareIdAccepted | usecases/youtube-transcript/main.py:15 | eleven id characters are returned as they are; a final line feed is dropped |
| VideoId.RefusedOtherwise | usecases/youtube-transcript/main.py:21 | a text with no link match that is not a bare id is refused |
| VideoId.LinkAtStart | usecases/youtube-transcript/main.py:14-20 | a prefix followed by a run yields that run |
| VideoId.PrefixesExclusive | usecases/youtube-transcript/main.py:14 | at most one of the three prefixes occurs at any position |
| VideoId.RunOf | usecases/youtube-transcript/main.py:14 | a run of run characters ends where the next character is not one |

## Left out

- Network I/O is not modelled: `fetch`, the body reader and async-generator suspension. The decoder consumes a sequence of already decoded reads. UTF-8 decoding by `TextDecoder` is the identity on text.
- `JSON.parse` and `JSON.stringify` are not modelled, because they are foreign calls. The parse outcome is given with the body text. The outgoing body records the value to be serialised. The markdown generator takes the two serialisations as function parameters.
- JSON numbers are integers; floating point is not modelled.
- JavaScript places integer-like object keys first. The model keeps plain insertion order.
- `toLowerCase`, `toUpperCase` and the regular expressions' letter classes are ASCII only. Unicode case mapping is not modelled.
- The error path for an `err` that is not an `Error`: the stream only throws `Error`s, so the chat's `Failed to execute` fallback is not modelled. The form's `Failed to save agent` fallback is modelled.
- The `statusText` on HTTP/2, where browsers report it empty, is not modelled. The model uses the HTTP/1.1 reason phrases.
- React's batching of state updates and the re-render between them are not modelled. Each `setMessages` is applied at once, in program order.
- Other field constraints of the server's models are not modelled, for example the name's maximum length and the UUID path parameters. They are enforced by the web framework. Only the `user_input` constraint of the execute input is modelled.
- The detail of the 422 response body is not modelled.
- `AgentForm.Validate`: the corrected check counts the trimmed prompt in characters (code points, as the server's `min_length` does), not in the UTF-16 units of `prompt.trim().length` that a JavaScript fix would use; `ValidatedPayloadAccepted` holds because of that choice.
- `AgentForm.Models`: the model menu is a constant; selecting from it is UI and is not modelled.
- Reading the catalog file, creating the output directory, `writeFileSync` and `path.join` normalisation are not modelled. A batch write's outcome is the parameter `written`. The output path is the directory, `/` and the file name.
- `SkillMarkdown.GenerateSkill`: a failing `writeFileSync` throws in the source; the model does not model that failure.
- `NodeCatalog.SortByCount`: the model sorts stably, but the contract states only ordering, permutation and total, not the order of ties.
- `SkillMarkdown.TemplateParameters`: the value of each key is stated only when parameter names are distinct. With repeated names, the later parameter's value wins, as `AssignLaterWins` states in general.
- `VideoId.ExtractVideoId`: Unicode properties of Python's `re` are not modelled. The character classes are the literal ones.
- `get_transcript`, `save_transcript` and `main` of the YouTube script are not modelled: they are network and file I/O.
- `FrameEncoding.RoundTrip`: it holds only for chunks without a blank line or a final line feed. Model replies often contain blank lines, and those chunks are cut into several frames; `TrailingLineFeedIsLost` exhibits the loss. A corrected framing that carries such chunks is not modelled.

## Findings

| source | as written | input that shows it | evidently intended | confidence | as-written member | corrected member |
|---|---|---|---|---|---|---|
| frontend/src/lib/api/agents.ts:59 | the streaming request body is `JSON.stringify(input)` without the key conversion every `apiClient` call applies, so the server sees `userInput` while its `AgentExecuteInput` requires `user_input` | `{ userInput: "hi" }` is refused with 422, so the chat reports `Failed to execute agent: Unprocessable Entity` | convert the body to wire spelling, as `executeAgent` does | not executed | AgentStreaming.AsWrittenRequestRefused | AgentStreaming.CorrectedRequestAccepted |
| frontend/src/components/features/agent/AgentForm.tsx:44 | the length check uses the untrimmed prompt, while the trimmed prompt is submitted | on the create page, nine spaces followed by `x` pass the check and submit the prompt `x`, which `AgentCreate` (backend/app/models/agent.py:10-16) refuses as shorter than 10 characters; `AgentUpdate` on the edit page has no prompt constraint | check the length of the trimmed prompt | not executed | AgentForm.PaddedPromptPassesAsWritten | AgentForm.ValidatedPayloadAccepted |
