# chat-base relay protocol, modelled in Dafny

chat-base is a browser chat front end for a streaming chat-completion
service. The browser and the server exchange a four-variant `AppMessage`
envelope over a WebSocket, and every frame is a bincode-encoded binary frame.

- The client sends `StartChat` with the whole conversation.
- For each `StartChat` it accepts, the server relays the service's streamed
  completion as `NextChatFragment` frames. It then ends the turn with exactly
  one terminal frame: `ChatCompleted` or `Error`.
- Per connection, the server keeps a `chat_busy` flag that admits one turn at
  a time.
- The browser keeps the conversation as a list of `(Uuid, Message)` entries.
  It collects fragments in a buffer and keeps a `pending` flag while a reply
  is under way. The user can edit, delete, rewind and regenerate entries.

The model has five modules, one file each:

| file | module | models |
|---|---|---|
| `wrappers.dfy` | `Wrappers` | Rust's `Option` and `Result` |
| `upstream.dfy` | `Upstream` | the completion service's shapes: roles, request messages, the non-streaming response, the streamed chunk, and the service as a function from a request to `Refused` or a finite chunk sequence |
| `types.dfy` | `Types` | `src/chat/types.rs`: roles, messages, the envelope, the conversions, the sink with `send_to_client`, and the session state |
| `ws.dfy` | `Ws` | `src/chat/ws.rs`: frame decoding, the busy gate (`chat`), the chunk loop (`just_chat`) and the receive loop (`handle_ws`) |
| `chat.dfy` | `Client` | the non-UI state of the `Chat` component in `src/chat/chat.rs`, and the editor's row count |

Modelling choices:

- **Sink.** The outgoing sink is a `Sink` object. Its `sent` sequence holds
  the messages whose frames were written. Its `peer` gives the serializer, as a
  function that may fail, and the number of frames after which the connection
  is gone.
- **Turns.** Each spawned turn is one atomic call of `Ws.Chat`.
- **Browser.** The browser's signals are the fields of the `Client.Chat`
  object, and each closure or effect is one method. Frames handed to the
  socket go into `outbox`.
- **Fresh UUIDs.** A new UUID is a parameter `newId`, required to be absent
  from the history.

The doc comment on `chat` (src/chat/ws.rs:78-79) says a busy assistant
answers with `ChatError`. The code only logs the error and returns, sending
nothing. The model follows the code.

The browser reacts only to fragments and completions: an `Error` frame is
ignored like any other unexpected frame (src/chat/chat.rs:143-146), so after
a turn that the server ends with `Error` the `pending` flag stays set and the
user cannot send again (`Client.Chat.Receive`, `Client.Chat.CanSend`).

## Model

| member | source | states |
|---|---|---|
| Types.Role.MessageWith | src/chat/types.rs:147-153 | the message carries the receiver as role and the given content, which the `role`/`content` accessors (types.rs:187-191) return unchanged |
| Types.Role.Empty | src/chat/types.rs:144 | the empty message is `MessageWith("")`: the receiver's role with no content |
| Types.RoleFromUpstream | src/chat/types.rs:159-168 | assistant, system and user map one-to-one onto the chat roles; the service's other roles are excluded as unreachable |
| Types.ToRequest | src/chat/types.rs:224-247 | the request message copies the content, and its role converts back to the message's own role |
| Types.ToRequests | src/chat/ws.rs:157-161 | the conversation converts message by message: same length, and each request keeps its message's content and role |
| Types.RequestRoundTrip | src/chat/types.rs:159-168 | converting a message to a request and back through the role conversion gives the original message |
| Types.MessageFromResponse | src/chat/types.rs:199-216 | fails with "response contained no options" exactly when there is no choice; otherwise takes the first choice's role, and its content or "" when absent |
| Types.Send | src/chat/types.rs:63-84 | one write succeeds exactly when serialization succeeds and the connection is still open; success appends the message, and any failure leaves the sink alone and reports `ServerError` |
| Types.SendToClient | src/chat/types.rs:58-85 | the method's new sink contents and result are those of `Send` |
| Types.SessionState.Default | src/chat/types.rs:105-118 | a fresh session holds the given client and is idle |
| Ws.DecodeMessage | src/chat/ws.rs:207-264 | only an `Ok` binary frame can give a message; a transport error and text, close, ping and pong frames give none; a binary frame gives exactly what deserialization gives, so a failure gives `None` |
| Ws.Classify | src/chat/ws.rs:184-194 | only the first choice of a chunk is read: a finish reason ends the stream, content without one is a fragment carrying exactly that text, and an error chunk, a chunk without choices or one without content fails |
| Ws.PumpAppendsFragments | src/chat/ws.rs:181-198 | the loop as written, each fragment written as soon as it is read: it only appends fragment frames, at most one per chunk, and fails with `ChatError` or a write's `ServerError` |
| Ws.Relay | src/chat/ws.rs:181-198 | the loop's reading of a stream forwards at most one fragment per chunk, and any failure is `ChatError` |
| Ws.RelayStopsAtFirstNonFragment | src/chat/ws.rs:181-198 | the fragments are the texts of the leading content-carrying chunks, in order, empty texts included; the first other chunk ends the stream with success on a finish reason and `ChatError` on an error, a chunk without choices or one without content; running out of chunks is success |
| Ws.RelayIgnoresChunksAfterFinish | src/chat/ws.rs:186-192 | chunks after the first finish reason never change the result, which is success |
| Ws.Fragments | src/chat/ws.rs:195 | each fragment text becomes one `NextChatFragment` frame, in order |
| Ws.SendEach | src/chat/ws.rs:196 | what is sent is a prefix of the frames, all of them exactly on success; on failure the write of the first unsent frame is the one that fails, and the error is `ServerError` |
| Ws.SendEachWritesSucceeded | src/chat/ws.rs:196 | each frame counted as sent was written by a successful write on what had been sent before it; with `SendEach`'s failure clause, writing stops exactly at the first failed write |
| Ws.SendEachReliable | src/chat/ws.rs:196 | over a reliable connection every frame is written, in order |
| Ws.PumpIsRelayThenDeliver | src/chat/ws.rs:181-198 | the loop that writes each fragment as it is read equals reading the whole stream and then writing its fragments; a failed write's error replaces the stream's outcome |
| Ws.AdapterAppendsFragments | src/chat/ws.rs:156-179 | a refused request gives `ChatError` with nothing sent; otherwise only fragment frames are appended after what was sent |
| Ws.JustChat | src/chat/ws.rs:150-199 | a refused request is `ChatError` with nothing sent; otherwise the sink and outcome are those of the chunk loop |
| Ws.Terminal | src/chat/ws.rs:111-123 | the frame that ends a turn is terminal: `ChatCompleted` exactly on success, and `Error(e)` for the error `e` |
| Ws.Reply | src/chat/ws.rs:111-123 | a turn's intended frames are fragments followed by exactly one terminal frame |
| Ws.Chat | src/chat/ws.rs:86-128 | a busy session stays busy and nothing is sent; an idle session runs one turn, always attempts the terminal frame and ignores that write's failure (ws.rs:116, 121), and is idle again on every path |
| Ws.TurnReliable | src/chat/ws.rs:111-123 | over a reliable connection a turn sends exactly its reply: the stream's fragments in order, then one terminal frame |
| Ws.TurnSendsPrefixOfReply | src/chat/ws.rs:103-127 | whatever the connection does, a turn only appends, and what it appends is a prefix of its reply whose last frame may be `Error(ServerError)` in place of a fragment whose write failed, never in place of the terminal frame |
| Ws.ScenarioFragmentsThenCompleted | src/chat/ws.rs:181-198 | the stream "Hel", "lo!", stop gives those two fragments and `ChatCompleted` |
| Ws.ScenarioFailureMidStream | src/chat/ws.rs:184 | a stream error after one fragment gives that fragment and `Error(ChatError)` |
| Ws.ServeOnlyAppends | src/chat/ws.rs:37-66 | whatever the connection does, the receive loop, one turn per chat request, only appends to what was sent |
| Ws.HandleWs | src/chat/ws.rs:32-67 | the receive loop leaves the session idle, and its sink ends as `Serve` describes: one turn per decoded `StartChat`, in arrival order |
| Ws.ServeIgnoresOtherItems | src/chat/ws.rs:41-65 | an inbound item that is not a chat request sends nothing and changes nothing, wherever it arrives |
| Ws.ServeReliable | src/chat/ws.rs:37-66 | over a reliable connection the loop sends the whole reply to each request, in request order, with no interleaving |
| Client.ToIndex | src/chat/chat.rs:23-31 | the index of the first entry with the identifier; `None` exactly when no entry has it |
| Client.ToIndexOfUnique | src/chat/chat.rs:23-31 | with unique identifiers, each entry is found at its own index |
| Client.LastId | src/chat/chat.rs:151 | the identifier of the last entry, absent exactly for an empty history |
| Client.Messages | src/chat/chat.rs:88-91 | the history's messages with identifiers dropped, in history order |
| Client.RemoveRetiresId | src/chat/chat.rs:227-232 | removing an entry keeps identifiers unique and its identifier is no longer found |
| Client.AppendKeepsUnique | src/chat/chat.rs:262-267 | appending under an unused identifier keeps identifiers unique, and the new entry is found last |
| Client.TruncateEndsAt | src/chat/chat.rs:185-188 | truncating after an entry keeps identifiers unique and makes that entry the last |
| Client.RenameMovesId | src/chat/chat.rs:218-223 | giving an entry a fresh identifier keeps identifiers unique; the entry is found under the new identifier at the same index and not under the old one |
| Client.IsWhitespace | src/chat/chat.rs:123 | the characters `str::trim` removes: the Unicode White_Space set |
| Client.TrimStart | src/chat/chat.rs:123 | removes exactly the leading whitespace: a suffix whose dropped characters are all whitespace and whose first character is not |
| Client.TrimEnd | src/chat/chat.rs:123 | removes exactly the trailing whitespace: a prefix whose dropped characters are all whitespace and whose last character is not |
| Client.Trim | src/chat/chat.rs:253-256 | never longer than the input; empty exactly when every character is whitespace, otherwise beginning and ending with a non-whitespace character (that it is the slice between the surrounding whitespace is `TrimIsSlice`) |
| Client.TrimBlankIff | src/chat/chat.rs:253-256 | trimming both ends leaves the slice between the surrounding whitespace, and removes everything exactly when everything is whitespace |
| Client.TrimIsSlice | src/chat/chat.rs:253-256 | the trimmed text is the slice of the input after its leading whitespace, with only whitespace after it |
| Client.TrimUnique | src/chat/chat.rs:121-128 | any slice with only whitespace around it and none at its own ends is the trimmed text, so the reply a completion adds is exactly the buffer with its surrounding whitespace removed |
| Client.Utf8Len | src/chat/chat.rs:738 | the byte length of a string is at least its character count |
| Client.Rows | src/chat/chat.rs:737-738 | the fewest rows of 80 columns whose capacity exceeds the text's byte length, at least one |
| Client.Chat.constructor | src/chat/chat.rs:49-68 | the history, draft and buffer start empty, nothing is pending and nothing is sent |
| Client.Chat.CanSend | src/chat/chat.rs:81-82 | the user may send exactly when the socket is open and no reply is pending |
| Client.Chat.HasActions | src/chat/chat.rs:347-376 | an entry shows action buttons exactly when it is present and its first occurrence is not the system prompt, which is drawn without any |
| Client.Chat.RegenerateOffered | src/chat/chat.rs:153-174 | regenerate is offered only on the last entry, only when it is the assistant's (user entries have none, chat.rs:432-433), and not while a reply is pending (chat.rs:70) |
| Client.Chat.RewindOffered | src/chat/chat.rs:176-192 | rewind is offered on every entry with action buttons except the last, and not while a reply is pending (chat.rs:70) |
| Client.Chat.LoadSystemMessage | src/chat/chat.rs:50-60 | a loaded, successful system prompt is appended under a fresh identifier; a missing or failed one changes nothing |
| Client.Chat.Input | src/chat/chat.rs:294-296 | typing replaces the draft |
| Client.Chat.SendHistory | src/chat/chat.rs:86-94 | marks a reply pending and sends `StartChat` with every message in history order, identifiers dropped |
| Client.Chat.Receive | src/chat/chat.rs:97-149 | a fragment extends the buffer and nothing else; a completion clears `pending` and the buffer, and appends the trimmed buffer as an assistant message exactly when it is not empty; any other frame, or none, changes nothing |
| Client.Chat.Complete | src/chat/chat.rs:117-139 | a completion clears `pending` and the buffer, and appends the trimmed buffer as an assistant message under a fresh identifier exactly when it is not empty, keeping identifiers unique |
| Client.Chat.Regenerate | src/chat/chat.rs:153-174 | where offered, on the last entry when it is the assistant's and nothing is pending, it removes that entry and then sends the remaining history |
| Client.Chat.Rewind | src/chat/chat.rs:176-192 | where offered, it truncates the history just after the entry, which becomes the last |
| Client.RewindToLastChangesNothing | src/chat/chat.rs:176-181 | rewinding to the last entry would keep the history as it is, which is why rewind is not offered there |
| Client.Chat.Edit | src/chat/chat.rs:217-224 | on an entry with action buttons, only the edited entry changes: it gets a fresh identifier and the new content and keeps its role and place |
| Client.Chat.Delete | src/chat/chat.rs:227-233 | on an entry with action buttons while nothing is pending (chat.rs:678), removes exactly the entry, the rest keeping their order; the length drops by one and the identifier is gone |
| Client.Chat.EnterDraft | src/chat/chat.rs:252-269 | a draft that is not all whitespace is appended untrimmed as a user message and the draft cleared; otherwise nothing changes |
| Client.Chat.Submit | src/chat/chat.rs:244-277 | acts only when the socket is open and no reply is pending (chat.rs:81-82): enters the draft as `EnterDraft` does, then always marks a reply pending and sends the whole history |

## Left out

- The bincode byte layout is left out, because it belongs to a foreign library.
  - The serializer is the `encode` field of `Types.Peer`.
  - The deserializer is a parameter of `Ws.DecodeMessage`.
- The async_openai client and its argument builders are left out.
  - The service is a function from the request to `Refused` or a finite chunk sequence.
  - A failure to build the request (src/chat/ws.rs:163-171) or to create the stream (src/chat/ws.rs:172-179) is the single outcome `Refused`.
- Types.ToRequest is total, while the source's message conversion can fail (src/chat/types.rs:224-247).
  - The builders are always given their only required field, so the model treats the conversion as never failing.
  - As a result, `just_chat`'s conversion-failure branch (src/chat/ws.rs:157-161) does not occur in the model.
- Concurrency is left out: `tokio::spawn`, the `Mutex` guards and the `Arc` sharing.
  - Each turn is one atomic call, so within `Ws.HandleWs` the busy gate is always open.
  - The busy path is proved for `Ws.Chat` on its own.
  - Interleavings of concurrent turns on one sink are not modelled.
- The generation parameters (model name, `max_tokens`, `temperature`, `top_p`) are left out. They are policy, and two of them are floating point.
- Logging and tracing are left out.
- Types.RoleFromUpstream requires one of the three chat roles, where the source panics with `unreachable!()` on the others.
- Types.MessageFromResponse inherits that requirement for the first choice's role, for the same reason.
- Client.Chat.Regenerate, Client.Chat.Rewind, Client.Chat.Edit and Client.Chat.Delete require the identifier to be present, where the source's `unwrap()` would panic otherwise. They also require the conditions under which the view shows and enables their button, because the view markup is not modelled.
- Client.Chat.Edit is not gated on `pending`: its edit is applied when the editor loses focus (chat.rs:581-584, 748), which the pending flag does not prevent.
- `system_message` and `get_system_prompt` (src/chat/chat.rs) are left out because they do file I/O and sleep. `Client.Chat.LoadSystemMessage` takes their result as a parameter.
- `get_base_url` and `get_key` (src/chat/types.rs) are left out because they read the environment. `Types.SessionState.Default` takes the client as a parameter.
- `Uuid::new_v4` is a parameter required to be unused, not a random draw.
- The view markup, scrolling, focus and the editing signal are left out, because they are user interface.
- The reactive signal machinery is left out. Each handler is a method on plain fields.
- `AppError` is not fully modelled. Its definition (src/error_template.rs) is not part of this model. The three variants used by the core, `NotFound`, `ChatError` and `ServerError`, stand for it.
- Client.IsWhitespace (used by `str::trim` at chat.rs:123 and 253) lists the Unicode White_Space characters that `str::trim` removes. Unicode tables are not otherwise modelled.
