# CollabPad relay and chat client, modelled in Dafny

CollabPad is a shared whiteboard with a team chat. A Socket.IO server in
`server.ts` counts the open connections and relays client events without
acting on their payloads:

- whiteboard strokes, clears and chat messages go to every connection, the
  sender included;
- typing notifications go to every connection except the sender;
- a request for the user count is answered to the asker alone;
- connects, disconnects and "user joined" send the count to everyone.

The chat page (`src/app/chat/page.tsx`) works as follows:

- it gates access with a shared key;
- it sends trimmed messages;
- it keeps the received messages;
- it keeps a list of who is typing;
- it groups consecutive messages of one sender on screen;
- it recognises messages that are a single fenced code block.

The model has six modules:

- `Relay` (`relay.dfy`) models the server. It has a class `Server<P>` with
  these fields:
  - the counter;
  - the live connections, a sequence of socket ids in the order they
    registered. It stands for Socket.IO's socket map.

  Each `socket.on` handler is one method. It returns the deliveries it asks
  the transport to make, as a sequence of (recipient, event) pairs. The
  payload type `P` is left abstract because the server never looks inside
  it.

  Beside the class there is a pure `Registry` with `Step` and `Run`. The
  connect and disconnect methods are proved equal to `Step`. The lemmas
  about whole traces of connects and disconnects are stated over `Run`.
- `Chat` (`chat.dfy`) holds the page's pure logic: the typing-list updater,
  the message append, the avatar and time grouping, and the typing label.
- `ChatPage` (`chat_page.dfy`) is the page's state as a class `Page`, with
  the handlers that change it.
- `CodeBlock` (`code_block.dfy`) is `parseCodeBlock`, with its regular
  expression analysed into an explicit recogniser. The recogniser is proved
  sound and complete against the shape the expression describes.
- `Text` (`text.dfy`) is JavaScript's `trim` and the `\w` class.
- `Seqs` (`seqs.dfy`) is the array `filter` that removes one value, and
  duplicate-freedom.

Strings are sequences of Unicode scalar values. Times are integers counting
milliseconds since the epoch. Socket ids that may be missing (`socket?.id`,
a payload's `senderId`) are `Option<string>`. That way an absent id equals
another absent id, as `undefined === undefined` does in the page.

## Model

| member | source | states |
|---|---|---|
| Seqs.RemoveAll | src/app/chat/page.tsx:69 | the filtered list is no longer than the input and no longer contains the removed value |
| Seqs.RemoveAllMember | src/app/chat/page.tsx:69 | an element survives the filter exactly when it was present and differs from the removed value |
| Seqs.RemoveAllConcat | src/app/chat/page.tsx:69 | filtering distributes over concatenation, so survivors keep their relative order |
| Seqs.RemoveAllAbsent | src/app/chat/page.tsx:69 | filtering out a value that is not there returns the list unchanged |
| Seqs.RemoveAllIdempotent | src/app/chat/page.tsx:69 | filtering twice is filtering once |
| Seqs.RemoveAllMultiset | src/app/chat/page.tsx:69 | every copy of the value is removed, and every other element keeps its multiplicity |
| Seqs.RemoveAllDistinct | src/app/chat/page.tsx:69 | on a duplicate-free list the filter keeps it duplicate-free; it removes exactly one element if the value was present, none otherwise |
| Seqs.DistinctAppend | src/app/chat/page.tsx:67 | appending a value that is absent keeps a list duplicate-free |
| Text.Trim | src/app/chat/page.tsx:173 | `trim` leaves no whitespace at either end |
| Text.TrimCut | src/app/chat/page.tsx:173 | `trim` keeps one contiguous piece of the input, and only whitespace is cut from either side |
| Text.TrimNoop | src/app/chat/page.tsx:173 | a string with no whitespace at either end trims to itself |
| Text.TrimPadding | src/app/chat/page.tsx:35 | surrounding whitespace never changes the trimmed result |
| Text.TrimEmptyIff | src/app/chat/page.tsx:105 | a message trims to the empty string (a falsy value) exactly when it is all whitespace |
| Text.TrimIdempotent | src/app/chat/page.tsx:107 | trimming twice is trimming once |
| Relay.ToAll | server.ts:25 | an emitted event reaches every listed connection once, in order, and nobody else |
| Relay.DecrementFloored | server.ts:38 | the decremented counter is never negative; it is one less when it was positive, and zero otherwise |
| Relay.Step | server.ts:24 | from a non-negative counter the counter stays non-negative; a connect registers its id and grows the registry by one; a disconnect leaves its id unregistered and never grows the registry |
| Relay.StepOthers | server.ts:36-38 | a connect or disconnect never changes whether any other connection is registered |
| Relay.StepValid | server.ts:21-40 | a connect with a fresh id, or any disconnect, keeps the counter non-negative and the registry duplicate-free |
| Relay.StepBalanced | server.ts:24 | an admissible connect or disconnect keeps the counter equal to the number of live connections |
| Relay.RunAppend | server.ts:21-40 | handling two batches of notifications in sequence is handling their concatenation |
| Relay.RunNeverNegative | server.ts:38 | from a non-negative counter, no sequence of connects and disconnects makes it negative |
| Relay.RunBalanced | server.ts:12 | from the start state, any admissible sequence of notifications keeps the counter equal to the number of live connections |
| Relay.RunConnects | server.ts:24 | N connects raise the counter by exactly N |
| Relay.RunDisconnects | server.ts:38 | M disconnects lower the counter by M, but never below zero |
| Relay.ConnectsThenDisconnects | server.ts:24-38 | after N connects and then M disconnects the counter is max(0, N - M); if the run is admissible, M <= N and N - M connections are live |
| Relay.AdmissibleRunSplit | server.ts:21-40 | a run the transport can deliver splits into two runs it can deliver |
| Relay.AdmissibleDisconnects | server.ts:36-38 | in a balanced state, a deliverable run of disconnects is no longer than the counter |
| Relay.Server.constructor | server.ts:12 | the process starts with a zero counter and no live connections |
| Relay.Server.OnConnection | server.ts:21-25 | the connection registers and the counter goes up by one; the new count goes to every live connection, the new one included |
| Relay.Server.OnDisconnect | server.ts:36-40 | the connection is unregistered and the counter drops by one, floored at zero; the new count goes to every remaining connection |
| Relay.Server.OnRequestUserCount | server.ts:27-29 | the current count goes to the asking connection only |
| Relay.Server.OnUserJoined | server.ts:31-34 | the unchanged count goes to every live connection |
| Relay.Server.OnClear | server.ts:42-45 | a clear goes to every live connection, the sender included |
| Relay.Server.OnDraw | server.ts:47-49 | the stroke goes unchanged to every live connection, the sender included |
| Relay.Server.OnChatMessage | server.ts:51-53 | the message goes unchanged to every live connection, the sender included |
| Relay.Server.OnTyping | server.ts:55-57 | the typing payload goes to every live connection except the sender, once each |
| Relay.ThreeClients | server.ts:21-40 | after three connects and the second one's disconnect, the first and third remain, the count is 2, and that count is sent to those two only |
| Relay.DrawThenType | server.ts:47-57 | after that, a stroke from the first client reaches both remaining clients, and its typing notice reaches only the other one |
| Chat.UpdateTyping | src/app/chat/page.tsx:64-71 | after a start the name is listed; after a stop it is not; other names are unaffected; a start keeps the old list as a prefix and adds at most one name, and leaves the list unchanged when the name is already listed |
| Chat.TypingStartIdempotent | src/app/chat/page.tsx:67 | a repeated start changes nothing |
| Chat.TypingStopIdempotent | src/app/chat/page.tsx:69 | a repeated stop changes nothing |
| Chat.TypingDistinct | src/app/chat/page.tsx:64-71 | updates never list a name twice |
| Chat.TypingStopKeepsOrder | src/app/chat/page.tsx:69 | a stop keeps the other names in the order they started typing |
| Chat.TypingRoundTrip | src/app/chat/page.tsx:64-71 | a start followed by a stop, for a name not listed, restores the list |
| Chat.Receive | src/app/chat/page.tsx:50-61 | exactly one message is appended and earlier ones are untouched; it carries the payload's text, sender and time; it is marked own exactly when the sender id equals this client's socket id |
| Chat.ShowAvatar | src/app/chat/page.tsx:340 | the first message always shows an avatar; a later one hides it exactly when its predecessor has the same sender |
| Chat.ShowTimestamp | src/app/chat/page.tsx:341-344 | the last message always shows its time; an earlier one hides it exactly when the next message has the same sender and comes at most five minutes later |
| Chat.OneSenderRun | src/app/chat/page.tsx:340-344 | in a run of one sender's messages, each at most five minutes after the one before, only the first shows an avatar and only the last can show its time |
| Chat.AvatarStable | src/app/chat/page.tsx:340 | messages arriving later never change whether an earlier message shows an avatar |
| Chat.StampStable | src/app/chat/page.tsx:341-344 | messages arriving later can change the time flag of the last message only |
| Chat.GroupStart | src/app/chat/page.tsx:340 | each message belongs to a group opened by an avatar; every message from the avatar to it has the same sender, and none of them shows an avatar |
| Chat.NextStamp | src/app/chat/page.tsx:341-344 | each message's time is shown on a message of the same sender at or after it, nothing between shows a time, and that message is at most five minutes later per step |
| Chat.AvatarAfterStamp | src/app/chat/page.tsx:340-344 | wherever a new avatar opens a group, the message before it shows its time |
| Chat.JoinComma | src/app/chat/page.tsx:416 | the joined text's length is the names' total length plus two per separator, and it starts with the first name; `JoinSnoc` gives its content name by name |
| Chat.JoinSnoc | src/app/chat/page.tsx:416 | joining one more name adds ", " and that name at the end |
| Chat.TypingLabel | src/app/chat/page.tsx:407 | the indicator is shown exactly when someone is typing |
| Chat.TypingLabelOne | src/app/chat/page.tsx:415 | one name gives "X is typing..." |
| Chat.TypingLabelMany | src/app/chat/page.tsx:416-418 | several names give the English list "A, B and C are typing..." |
| Chat.JoinAnd | src/app/chat/page.tsx:416-418 | joining all but the last name with commas and appending " and " plus the last is the English list built from the front |
| CodeBlock.ParseCodeBlock | src/app/chat/page.tsx:171-182 | a message is code exactly when its trimmed text is at least six characters and opens and closes with a fence; otherwise the triple is cleared; the language holds only word characters |
| CodeBlock.ParsePadding | src/app/chat/page.tsx:173 | whitespace around a message never changes how it is parsed |
| CodeBlock.LeadingWord | src/app/chat/page.tsx:172 | the language capture is the longest prefix of word characters |
| CodeBlock.BodyStart | src/app/chat/page.tsx:172 | the body starts after the language and the optional newline, and never past the closing fence |
| CodeBlock.Recognise | src/app/chat/page.tsx:174-181 | a trimmed text matches exactly when it has both fences; a non-match returns the cleared triple; a reported language is made only of word characters |
| CodeBlock.RecogniseSound | src/app/chat/page.tsx:172-179 | a match has the shape fence, word characters, optional newline, body, fence; the language is the whole run of word characters, and the code is the trimmed body |
| CodeBlock.RecogniseComplete | src/app/chat/page.tsx:172-176 | every text of that shape matches |
| CodeBlock.RecogniseExact | src/app/chat/page.tsx:172-179 | for the decomposition the expression picks, the result is exactly that language and that trimmed body |
| CodeBlock.LeadingWordExact | src/app/chat/page.tsx:172 | a run of word characters followed by a non-word character is the captured language |
| CodeBlock.LanguageOnly | src/app/chat/page.tsx:172-179 | a language glued to the closing fence is taken as the language, with empty code |
| CodeBlock.EmptyBlock | src/app/chat/page.tsx:172-179 | six backticks are an empty code block |
| CodeBlock.TypicalBlock | src/app/chat/page.tsx:171-182 | a language line, a code line and a closing fence give that language and that code |
| ChatPage.KeyAccepted | src/app/chat/page.tsx:35 | the access key itself is accepted, and no accepted input is shorter than the key |
| ChatPage.KeyAcceptedIff | src/app/chat/page.tsx:35 | a key is accepted exactly when it is the access key with only whitespace around it |
| ChatPage.CanSend | src/app/chat/page.tsx:105 | a message is sent exactly when it has a character that is not whitespace, a name is set, and a socket is held |
| ChatPage.Outgoing | src/app/chat/page.tsx:106-113 | the emits are the chat message (trimmed text, name, time, socket id) and then the end of typing |
| ChatPage.OutgoingText | src/app/chat/page.tsx:107 | a sent text is never empty and has no whitespace at either end |
| ChatPage.EchoIsOwn | src/app/chat/page.tsx:58 | a message this client sent, relayed back while it holds the same socket, is marked own |
| ChatPage.Page.constructor | src/app/chat/page.tsx:18-27 | the page starts locked, empty and without a socket |
| ChatPage.Page.SelfId | src/app/chat/page.tsx:58 | with a socket held, the result is that socket's id (possibly absent); without one, it is absent |
| ChatPage.Page.VerifyAccessKey | src/app/chat/page.tsx:34-41 | an accepted key unlocks the page and clears the error; any other key shows the error, clears the input and leaves the lock as it was |
| ChatPage.Page.SendMessage | src/app/chat/page.tsx:104-116 | with a non-blank message, a chosen name and a socket: emits the message and then the end of typing, clears the input and the typing flag; otherwise emits nothing and changes nothing |
| ChatPage.Page.Logout | src/app/chat/page.tsx:149-161 | the page returns to locked and empty, and a held socket is disconnected and dropped; the error text and the typing flag are kept |
| ChatPage.Page.OnChatMessage | src/app/chat/page.tsx:50-61 | the message list grows by the received message, marked own exactly when its sender id equals this client's |
| ChatPage.Page.OnTyping | src/app/chat/page.tsx:64-72 | the typing list is updated as `UpdateTyping` says, and it stays duplicate-free |

## Left out

- The HTTP server, Next.js preparation, `listen`, and the console logging in
  `server.ts` are left out. They are I/O and change none of the relay's
  state; the one way logging can fail is covered in the next line.
- Inbound payloads are assumed to be well-formed. The server never
  validates them. A "user joined" event without a payload throws at the log
  line `server.ts:33`, after the broadcast at line 32 has been made;
  Relay.Server.OnUserJoined models only that broadcast. On the page,
  missing or mistyped fields of a "chat message" or "typing" payload are
  likewise not modelled: `ChatPayload` and `TypingPayload` always carry
  every field.
- The Socket.IO transport is not modelled. Delivery, reconnection and the
  assignment of socket ids are outside the model: a handler's result is the
  list of deliveries it asks for, and ids arrive as inputs.
- Relay.Server.OnDisconnect runs, as the handler does, even for an id that is
  not registered. The registry is then unchanged, but the counter still
  drops. The counter stays equal to the number of live connections only for
  disconnects the transport can actually deliver.
- The server keeps no typing state. A client that disconnects while typing
  gets no stop event sent on its behalf: OnDisconnect emits only count
  updates. Its name therefore stays in the other clients' typing lists, as
  in the source.
- Chat.Receive does not take its message id from the clock: the id
  (`Date.now().toString()`) is an input.
- Chat.Receive, Chat.NextStamp and ChatPage.Page.SendMessage take times as
  integer milliseconds. Parsing and formatting dates (`new Date`,
  `toISOString`, `toLocaleTimeString`) is left out. So is an invalid date,
  whose NaN comparison would hide a timestamp.
- `Text.Trim` works on Unicode scalar values, not UTF-16 code units. The
  whitespace set is ECMAScript's, so no character listed there is missed.
- `CodeBlock.Recognise` replaces the regular-expression engine with a
  recogniser. `RecogniseSound`, `RecogniseComplete` and `RecogniseExact`
  relate that recogniser to the shape the expression describes; the engine
  itself is not modelled.
- `handleUsernameSubmit`, `handleTyping` with its one-second timer,
  `initializeSocket` (creating the socket and registering the listeners),
  the `useEffect` clean-up, `handleCopy`, scrolling and all rendering other
  than the grouping flags and the typing label are left out. They are React
  and timer plumbing outside the modelled core.
- ChatPage.Page.Logout does not model disconnecting the socket. It returns
  whether a socket was held, and the call itself is transport.
- The socket is a module-level variable in the page. It is modelled as a
  field of `Page`, which is equivalent for a single mounted page.
- The whiteboard page (`src/app/draw/page.tsx`) and the landing page are not
  part of this model. On the server, their `draw` and `clear` events are
  covered by the relay.
