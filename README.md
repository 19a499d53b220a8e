# Chat room page: live-room state

A model of the live part of the chat page of a small multi-user chat client (`src/pages/ChatPage.tsx`). Without React and socket.io, what the page does is a sequential, event-driven state machine over four pieces of state:

- `messages`, the rendered list;
- `usersConnected`, the presence count;
- `input`, the text box;
- `socketRef`, the connection handle.

Three entry points change that state:

- the `"server"` listener appends `new_message` payloads;
- the `"user_count_update"` listener overwrites the count;
- `sendMessage` checks its guard, appends an optimistic entry, emits one `send_message` event and clears the input.

The connection effect opens the socket only for a present user id and room id, and its cleanup disconnects the socket.

The project has two modules:

- `JsText` (`js_text.dfy`) models the JavaScript string behaviour the page depends on. This is `String.prototype.trim` with ECMAScript's whitespace and line-terminator set, and the decimal rendering of `Date.now()` inside a template literal.
- `ChatPage` (`chat_page.dfy`) holds the records, the identity derivation, the list updaters and the class `Room`, which has one method per handler and one per state update the handlers are made of.

`Room` keeps a ghost `trace` of effects in order: appended entries, emitted events and count updates. Each of `Room.AppendEntry` and `Room.Emit` extends the trace right after the assignment it records. The invariant `Valid()` says six things:

- the list is exactly the appended entries;
- the outbox is exactly the emitted events;
- the count is the most recent update, or 0 if there was none;
- every emit comes straight after the append of an entry with the same text and author;
- a socket is held only when the user id and the room id are both present, and it was opened with exactly those two in its query;
- nothing has been emitted unless a socket is held.

The two listeners are registered on the socket the connection effect opens, and `disconnect` stops their delivery, so `Room.OnServer` and `Room.OnUserCountUpdate` require a held, connected socket.

The page does less than a chat client might be expected to:

- It has no dedup by authorship. Every `new_message` is appended, including one whose `userId` is the local user's (`ReceiveOwnMessage`).
- It loads no history and does no seeding. It does not reorder by `sentAt` and has no send-failure state.
- It adds no reconnect or backoff of its own.
- The provisional id is `optimistic-` followed by the millisecond clock. It is not unique: two sends in the same millisecond get the same id. `OptimisticIdsDistinct` only proves that different milliseconds give different ids.
- Teardown disconnects the socket but does not clear `socketRef`, and the `sendMessage` guard tests only that a socket is held. In the state machine, a send after `Room.Teardown` therefore passes the guard and emits on the closed socket, and `Room.SendMessage` models this as written. The mounted page never takes that path. Cleanup runs only at unmount or before the effect re-runs. A re-run with a present `roomId` puts a new, connected socket in the ref. A re-run with a falsy `roomId` opens none, and then the guard's `!roomId` refuses the send.

## Model

| member | source | states |
|---|---|---|
| `JsText.TrimStart` | src/pages/ChatPage.tsx:87 | the leading half of `trim`: the result is a suffix of the input, it does not start with whitespace, and everything removed was whitespace or a line terminator |
| `JsText.TrimEnd` | src/pages/ChatPage.tsx:87 | the trailing half of `trim`: the result is a prefix of the input, it does not end with whitespace, and everything removed was whitespace or a line terminator |
| `JsText.Trim` | src/pages/ChatPage.tsx:87 | `input.trim()` is empty exactly when every character of the input is whitespace or a line terminator (the empty input included) |
| `JsText.TrimBlank` | src/pages/ChatPage.tsx:87 | stripping the trailing whitespace of what is left after stripping the leading whitespace leaves nothing exactly when the whole input was whitespace |
| `JsText.Decimal` | src/pages/ChatPage.tsx:92 | the rendering of the clock value in the template literal is a non-empty string of decimal digits with no leading zero |
| `JsText.DecimalRoundTrip` | src/pages/ChatPage.tsx:92 | reading the rendered digits back gives the clock value |
| `JsText.DecimalInjective` | src/pages/ChatPage.tsx:92 | different clock values render differently |
| `ChatPage.DeriveUserInfo` | src/pages/ChatPage.tsx:37-48 | a parsed stored record gives its id; a missing or unparsable one gives no id; the name is the username when truthy, otherwise "Anonymous"; the name is never empty |
| `ChatPage.ToMessage` | src/pages/ChatPage.tsx:65-71 | the entry built from a payload carries the payload's id, name, text and sentAt, with `userId` becoming `user` |
| `ChatPage.AppendServer` | src/pages/ChatPage.tsx:63-73 | a `new_message` payload adds one entry at the tail, its id, user, name, text and sentAt copied from the payload's id, userId, name, text and sentAt, and earlier entries are unchanged; any other type leaves the list unchanged |
| `ChatPage.CanSend` | src/pages/ChatPage.tsx:87 | the send guard passes exactly when the input is not blank, a socket is held, and the user id and room id are both present (non-null and non-empty) |
| `ChatPage.OptimisticId` | src/pages/ChatPage.tsx:92 | the provisional id is `optimistic-` followed by a non-empty run of digits that reads back as the clock value |
| `ChatPage.OptimisticIdsDistinct` | src/pages/ChatPage.tsx:92 | provisional ids from different millisecond readings differ |
| `ChatPage.Optimistic` | src/pages/ChatPage.tsx:91-97 | the optimistic entry's id is `optimistic-` followed by the clock's digits; its user is the local id (non-empty), its name the local name, its text the raw untrimmed input, and its sentAt the ISO clock reading |
| `ChatPage.SendEvent` | src/pages/ChatPage.tsx:101-106 | the emitted event goes on channel "client" with type "send_message" and carries the room id, the user id and the text it is given |
| `ChatPage.LastWriteWins` | src/pages/ChatPage.tsx:76-78 | after a count update, later effects that set no count leave the count at that update's value |
| `ChatPage.CountUpdatesKeepMessages` | src/pages/ChatPage.tsx:76-78 | any run of count updates leaves the message list unchanged |
| `ChatPage.EmitAfterOptimisticKeepsOrder` | src/pages/ChatPage.tsx:98-106 | an emit placed right after the append of an entry with the same text and author keeps every emit right after its entry |
| `ChatPage.NonEmitStep` | src/pages/ChatPage.tsx:72-78 | an append or a count update extends the list by what it appends, leaves the emitted events alone, sets the count only if it is a count update, and keeps every emit right after its entry |
| `ChatPage.EmitsBoundedByAppends` | src/pages/ChatPage.tsx:85-109 | when every emit follows its entry, the page never has more emitted events than list entries |
| `ChatPage.Room.constructor` | src/pages/ChatPage.tsx:29-48 | on mount the list is empty, the input is empty, the count is 0, there is no socket, nothing has been emitted, and the identity is derived from storage |
| `ChatPage.Room.Connect` | src/pages/ChatPage.tsx:50-56 | opens a socket with query `{userId, roomId}` only when both are present; otherwise nothing changes; no other state changes |
| `ChatPage.Room.Teardown` | src/pages/ChatPage.tsx:80-82 | disconnects a held socket and leaves it in the ref; a second call changes nothing; no other state changes |
| `ChatPage.Room.OnServer` | src/pages/ChatPage.tsx:63-74 | on a connected socket, the list becomes `AppendServer` of the old list; input, count, socket and outbox are unchanged; the invariant is kept |
| `ChatPage.Room.OnUserCountUpdate` | src/pages/ChatPage.tsx:76-78 | on a connected socket, the count becomes the pushed value whatever it was; list, input, socket and outbox are unchanged; the invariant (count = latest update) is kept |
| `ChatPage.Room.Edit` | src/pages/ChatPage.tsx:162 | `setInput`: the input becomes the given value and nothing else changes |
| `ChatPage.Room.AppendEntry` | src/pages/ChatPage.tsx:72 | `setMessages((prev) => [...prev, m])`: the list gains exactly `m` at the tail, recorded as one append; nothing else changes and the invariant is kept |
| `ChatPage.Room.Emit` | src/pages/ChatPage.tsx:101-106 | `socket.emit`: the outbox gains exactly the event, recorded as one emit right after the matching entry, and only on a held socket; nothing else changes and the invariant is kept |
| `ChatPage.Room.SendUnchecked` | src/pages/ChatPage.tsx:91-108 | past the guard, the list gains the optimistic entry, then the outbox gains its `send_message` event with the same raw text, then the input is cleared; count and socket are unchanged |
| `ChatPage.Room.SendMessage` | src/pages/ChatPage.tsx:85-109 | if the guard refuses, nothing changes and the input keeps its value; otherwise the method appends exactly one optimistic entry, then emits exactly one `{type: "send_message", roomId, userId, text}` event on channel "client" with the same raw text, and clears the input; count and socket are unchanged |
| `ChatPage.ReceiveOwnMessage` | src/pages/ChatPage.tsx:61-74 | in a connected room, a `new_message` whose `userId` is the local user's id is still appended as one more entry at the tail, carrying the local id |

## Left out

- socket.io itself is not modelled: `io(...)`, listener registration, the wire, delivery and acknowledgement. Emitting is modelled as appending to `outbox`. The socket is a value recording its query and whether it is connected. Events are modelled as arriving only through the handler methods.
- socket.io's own reconnection with backoff, which `io(...)` performs with the default options used at src/pages/ChatPage.tsx:54, is not modelled. A `Room`'s socket never reconnects after `Teardown`.
- Local storage and `JSON.parse` are not modelled. The stored record enters as a `StoredUser` value, which is missing, unparsable, or a record with optional string `id` and `username`. Non-string JSON values for those fields (numbers, booleans, objects) are not modelled.
- The two clock reads, `Date.now()` and `new Date().toISOString()`, are parameters of `SendMessage`. The ISO string is taken as given.
- `Decimal` models the rendering of a non-negative integer below 10^21. That covers every clock value from 1970 on; `Date.now()` before 1970 is negative and is not modelled. Fractional numbers and exponent notation are not modelled.
- React's state batching and re-rendering are not modelled. Each handler is one atomic step. The order of effects inside `sendMessage` is recorded in the ghost trace.
- The identity never changes on a mounted page: `userInfo` comes from a `useState` initialiser with no setter (src/pages/ChatPage.tsx:37). The `roomId` route parameter can change. When it does on a mounted page, the old socket is disconnected and a new one is opened. The list, the input and the count carry over. The model fixes `roomId` for the life of a `Room` and does not capture this.
- The presence count is modelled as an unbounded integer. JavaScript numbers that are not integers are not modelled.
- JavaScript strings are UTF-16. The model uses Unicode scalar values. Every character `trim` strips lies in the Basic Multilingual Plane, so the blank test is the same.
- The page markup, the "You" label, `copyRoomId` (clipboard and alert) and the other pages (home, auth, modal, routing) are not modelled. They are presentation, or HTTP and navigation code outside the live room.
