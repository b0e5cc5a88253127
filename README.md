# lan-share: a verified model of the relay server and its browser hook

lan-share is a small LAN file-sharing and chat service. A Bun/Hono server
keeps an in-memory registry of uploaded files (`fileStorage`, a JavaScript
`Map` that iterates in insertion order) and a set of live real-time sockets
(`connectedClients`). Each socket carries a record `ws.data = {clientId,
authenticated}`. Three things are restricted by origin:

- the token endpoint `GET /api/token`, which judges the caller only by the
  `x-forwarded-for` and `x-real-ip` headers the caller itself sends, and
  treats a request carrying neither as coming from `127.0.0.1`; a LAN caller
  that sends no such header, or names a loopback address in one, gets the token;
- automatic authentication when a socket opens, which trusts loopback and `172.*`;
- the authentication handshake and the fan-out of events, which work per socket.

Sockets that are not trusted by origin must present the server token in an
`auth` message. Chat messages and `file_uploaded` notices go only to
authenticated sockets. The browser keeps its own view in the `useWebSocket`
hook: connection and authentication flags, a chat log and a file list. Its
`onmessage` switch folds each server message into that view.

The model has these parts:

- `Protocol` (protocol.dfy): the wire messages in both directions, one send
  as a `Delivery`, and `Inbox`, the messages one socket receives.
- `Origin` (origin.dfy): the two trust predicates, how the client address is
  resolved, and the token endpoint.
- `Relay` (relay.dfy): the server state as a value and each handler as a
  function from a state to the next state and its sends: socket open,
  socket message, socket close, upload, download, listing. `Run` replays any
  sequence of handler invocations.
- `RelayProps` (relay_props.dfy): the properties of those handlers.
- `LanShareServer` (server.dfy): `Server`, a class whose fields are the
  registry, the socket records and the socket set. Its methods update them in
  place, with the broadcast and upload loops written as loops. Each method is
  proved to produce exactly the state and sends of its `Relay` function.
- `Client` (client.dfy): the hook's reducer `Step` and its fold over a
  message stream. `Connection` is a class for the hook's mutable state and
  the socket it holds, with the `connect`, `onopen`, `onmessage`, `onclose`,
  `onerror`, `sendMessage` and `disconnect` handlers.
- `Sync` (sync.dfy): the two halves together. A browser that folds what the
  server sends to its socket ends up authenticated and showing the server's
  listing, and it stays in step through uploads and chat.

Outside inputs are parameters:

- randomUUID is a sequence of file ids that are distinct and not yet stored.
- The clock is a sequence of timestamps, one per stored file.
- The outcome of reading and writing each uploaded file is `failAt`, the
  index of the first part whose read or write throws, if any.
- A socket's remote address and the request headers are strings or optional
  strings.

## Model

| member | source | states |
|---|---|---|
| Origin.TokenClientIp | backend/src/index.ts:35-37 | the address is `x-forwarded-for` when present and non-empty, else `x-real-ip` when present and non-empty, else loopback; it is never empty |
| Origin.WsClientIp | backend/src/index.ts:226 | a socket is judged by its remote address, or by `127.0.0.1` when that is empty |
| Origin.TokenEndpoint | backend/src/index.ts:34-45 | the endpoint answers with the server token exactly when the resolved address is local for the token, and with 403 otherwise |
| Origin.LoopbackIsPrefixOrV6 | backend/src/index.ts:40 | an address is local for the token iff it is `::1` or starts with `127.`; the literal `127.0.0.1` test adds nothing |
| Origin.TokenGrantedExactlyForLoopback | backend/src/index.ts:35-44 | in terms of the headers, the token is returned iff the resolved address is `::1` or starts with `127.`, and 403 is returned otherwise |
| Origin.TokenGrantedWithoutHeaders | backend/src/index.ts:35-44 | a request with neither header always receives the token |
| Origin.TokenForbiddenForOtherAddress | backend/src/index.ts:40-41 | any non-empty `x-forwarded-for` other than `::1` or a `127.` address gets 403, whatever `x-real-ip` says |
| Origin.WsTrustExtendsTokenTrust | backend/src/index.ts:228 | socket trust includes token trust; the extra trusted addresses are exactly those starting with `172.`, none of which can read the token |
| Relay.Listing | backend/src/index.ts:176-185 | the listing has one entry per stored file; entry i is the id at position i of the insertion order with that file's name, size and time |
| RelayProps.ListingAppend | backend/src/index.ts:121-126 | storing a file under a new id appends exactly its entry to the listing; earlier entries keep their contents and order |
| Relay.Open | backend/src/index.ts:222-246 | opening keeps the state consistent and the file registry unchanged; it appends the socket to the set with its clientId; the socket is authenticated iff its address is trusted; other sockets' records are untouched |
| LanShareServer.Server.Open | backend/src/index.ts:222-246 | the in-place handler produces the state and sends of `Relay.Open`, and keeps the server state consistent |
| RelayProps.OpenHandshake | backend/src/index.ts:226-242 | a new socket joins the set and is authenticated iff its address is `::1`, `127.*` or `172.*`; it then alone is sent `auth_success` followed by the full current listing; otherwise it is sent nothing |
| Relay.Receive | backend/src/index.ts:248-295 | a message never changes the registry or the socket set, never deauthenticates a socket, and changes no other socket's record |
| LanShareServer.Server.Message | backend/src/index.ts:248-295 | the in-place handler produces the state and sends of `Relay.Receive`, and keeps the server state consistent |
| RelayProps.WrongTokenThenRetry | backend/src/index.ts:253-269 | a wrong or missing token gets exactly one `auth_failed` and changes nothing, so the socket stays connected; a retry with the right token authenticates it and sends `auth_success` then the listing |
| RelayProps.UnauthenticatedRejected | backend/src/index.ts:272-275 | before authentication, any parsed message other than `auth` gets one `error` "Not authenticated" and changes nothing |
| RelayProps.IgnoredMessages | backend/src/index.ts:253-292 | an unparseable payload, and any non-chat message on an authenticated socket, gets no reply and changes nothing |
| RelayProps.ChatReachesAuthenticatedOnly | backend/src/index.ts:277-290 | a chat message from an authenticated socket reaches each authenticated socket in the set exactly once, the sender included, with `sender` set to the sender's clientId; every other socket receives nothing |
| LanShareServer.Server.Broadcast | backend/src/index.ts:286-290 | the send loop over the socket set sends the message once to each authenticated socket, in set order |
| RelayProps.InboxFanout | backend/src/index.ts:144-148 | a fan-out delivers exactly one copy to a socket that is in the set and authenticated, and nothing to any other socket |
| Relay.Remove | backend/src/index.ts:299 | deleting from the set removes exactly that socket; a non-member leaves the set as it was; members stay distinct |
| Relay.Close | backend/src/index.ts:297-300 | closing removes the socket from the set and nothing else; the registry and every socket record are unchanged |
| LanShareServer.Server.Close | backend/src/index.ts:297-300 | the in-place deletion produces the state of `Relay.Close` |
| RelayProps.CloseIdempotent | backend/src/index.ts:299 | closing twice is closing once; closing a socket not in the set is a no-op |
| Relay.Fanout | backend/src/index.ts:286-290 | a broadcast sends at most one message per socket of the set; `RelayProps.InboxFanout` states exactly who receives it |
| Relay.Handle | backend/src/index.ts:222-300 | every handler (open, message, close, upload) keeps the state consistent and keeps every authenticated socket authenticated |
| Relay.Run | backend/src/index.ts:229 | over any run of handlers the state stays consistent and the flag is only ever set to true: a socket once authenticated stays authenticated |
| RelayProps.HandleSkipsClosed | backend/src/index.ts:297-300 | a socket that has left the set is sent nothing by any handler and is never re-added to the set |
| RelayProps.RunSkipsClosed | backend/src/index.ts:297-300 | over any run of handlers, such a socket is sent nothing and stays out of the set |
| RelayProps.ClosedReceivesNothingLater | backend/src/index.ts:286-290 | after a close, no message any later handler sends reaches the closed socket, and neither does any broadcast in any later state |
| Relay.Selected | backend/src/index.ts:84-88 | the upload processes the `files` parts if there are any, else the single `file` part, else nothing; the selection is empty iff both are absent |
| Relay.StoredCount | backend/src/index.ts:104-115 | the loop stores all parts unless a part's read or write throws, and then exactly the parts before it |
| Relay.StoreParts | backend/src/index.ts:104-149 | running the loop leaves the socket records and the set untouched; it appends the new ids to the insertion order, adds exactly them to the registry, and makes one summary per part |
| Relay.StorePartsValid | backend/src/index.ts:105-126 | storing under fresh ids keeps every stored file named once in the insertion order |
| RelayProps.StorePartsRecords | backend/src/index.ts:121-126 | after the loop every earlier file keeps its record, and the i-th new id maps to the i-th part's name, size, blob path and time |
| RelayProps.StorePartsSummaries | backend/src/index.ts:128-133 | summary i carries the i-th id and the i-th part's name and size, in submission order |
| RelayProps.StorePartsNotifies | backend/src/index.ts:136-148 | an authenticated socket in the set receives one `file_uploaded` per stored part, in order; every other socket receives none |
| Relay.Upload | backend/src/index.ts:78-158 | every upload outcome keeps the state consistent and leaves the socket records and the set as they were; a 200 lists one summary per selected part |
| LanShareServer.Server.Upload | backend/src/index.ts:78-158 | the in-place handler produces the state, sends and response of `Relay.Upload`, and keeps the server state consistent |
| LanShareServer.Server.StoreEach | backend/src/index.ts:104-149 | the loop over the parts stops at the first failing part and reports whether one failed; its state, sends and summaries are those of `Relay.StoreParts` over the parts before it |
| LanShareServer.Server.StoreOne | backend/src/index.ts:121-148 | one pass adds the file to the registry and to the end of the insertion order, then notifies the authenticated sockets in set order |
| Relay.UploadRunsLoop | backend/src/index.ts:94-151 | an authorised upload with a non-empty selection is the loop run over the parts before the first failure, answered 200 with the summaries when none failed and 500 otherwise |
| RelayProps.UploadRejected | backend/src/index.ts:94-99 | an empty selection or a wrong token is answered 400; a body that cannot be parsed is answered 500; either way nothing is stored and nobody is notified |
| RelayProps.UploadStoresPrefix | backend/src/index.ts:104-126 | an accepted upload stores, under the fresh ids and in submission order, each part before the first failure, with its name and size; earlier files are untouched and nothing is rolled back |
| RelayProps.UploadResponds | backend/src/index.ts:128-157 | an accepted upload is 500 iff some part failed; otherwise it is 200 listing, in submission order, each part's id, name, size and time |
| RelayProps.UploadNotifiesAuthenticatedOnly | backend/src/index.ts:136-148 | each authenticated socket in the set receives one `file_uploaded` per stored part, in submission order; other sockets receive none |
| Relay.Download | backend/src/index.ts:161-173 | unknown ids get 404; known ids are streamed from their blob as `application/octet-stream`, with a disposition naming the stored filename |
| LanShareServer.Server.Download | backend/src/index.ts:161-173 | the handler answers as `Relay.Download` does: 404 exactly for ids not in the registry |
| Relay.Disposition | backend/src/index.ts:170 | the header value is `attachment; filename="` followed by the stored filename and a closing quote |
| RelayProps.DispositionRoundTrip | backend/src/index.ts:170 | the filename sits between the fixed prefix and the final quote of the `Content-Disposition` value, so it can be read back by position exactly as stored |
| Relay.BlobPath | backend/src/index.ts:106 | the blob name starts with `lan-share-`, then carries the file id, and ends with the filename |
| RelayProps.DownloadAfterUpload | backend/src/index.ts:161-173 | right after an upload, each stored part downloads from the blob path recorded for its id, under its name; an id that was never issued gets 404 |
| Client.Step | frontend/src/hooks/useWebSocket.ts:64-98 | no message changes `isConnected` or removes a chat line; only `files_history` can drop file entries; only the three auth responses touch `isAuthenticated` |
| Client.AuthResponsesOnlyTouchFlag | frontend/src/hooks/useWebSocket.ts:69-76 | `auth_success` sets the flag, `auth_failed` and `error` clear it; chat log and files are unchanged |
| Client.ChatAppendsOne | frontend/src/hooks/useWebSocket.ts:77-79 | a chat message appends exactly one line and keeps every earlier line in order |
| Client.FileUploadedAppendsEntry | frontend/src/hooks/useWebSocket.ts:80-87 | a `file_uploaded` notice appends one entry whose id is the notice's `fileId` and keeps earlier entries |
| Client.HistoryReplaces | frontend/src/hooks/useWebSocket.ts:88-93 | `files_history` replaces the file list wholesale, regardless of the old list, and receiving it twice equals receiving it once |
| Client.FoldAppend | frontend/src/hooks/useWebSocket.ts:64-98 | receiving two batches in turn equals receiving their concatenation |
| Client.FoldChats | frontend/src/hooks/useWebSocket.ts:77-79 | after any stream, the chat log is the old log followed by exactly the stream's chat messages, in order |
| Client.FoldUploads | frontend/src/hooks/useWebSocket.ts:80-87 | a run of `file_uploaded` notices appends the announced entries in order and changes nothing else |
| Client.FoldHistoryThenUploads | frontend/src/hooks/useWebSocket.ts:80-93 | after a history followed by notices, the file list is the history followed by the announced entries |
| Client.Fold | frontend/src/hooks/useWebSocket.ts:64-98 | applying a stream of messages in order never changes `isConnected` and never removes a chat line |
| Client.SocketUrl | frontend/src/hooks/useWebSocket.ts:50-51 | the URL always begins with the page's `ws:`/`wss:` scheme, host and `/ws`, and is longer than that exactly when a non-empty token is supplied |
| Client.QueryToken | frontend/src/hooks/useWebSocket.ts:51 | a token read back from a socket URL is the base URL's `?token=` suffix |
| Client.UrlCarriesTokenIffSupplied | frontend/src/hooks/useWebSocket.ts:50-51 | the socket URL carries `?token=` iff a non-empty token is supplied, and then carries that token verbatim |
| Client.Connection.Connect | frontend/src/hooks/useWebSocket.ts:47-54 | a no-op when the held socket is open; otherwise a new connecting socket for the page's scheme and host replaces it; the view is untouched |
| Client.Connection.OnOpen | frontend/src/hooks/useWebSocket.ts:56-62 | the socket becomes open and `isConnected` true; `auth` with the token is sent iff a non-empty token was supplied |
| Client.Connection.OnMessage | frontend/src/hooks/useWebSocket.ts:64-98 | a parsed message is applied by `Step`; a payload that fails to parse changes nothing |
| Client.Connection.OnClose | frontend/src/hooks/useWebSocket.ts:100-103 | both flags become false; chat log and files stay |
| Client.Connection.OnError | frontend/src/hooks/useWebSocket.ts:105-109 | both flags become false; chat log, files and socket stay |
| Client.Connection.SendMessage | frontend/src/hooks/useWebSocket.ts:112-119 | a `chat_message` is emitted iff the held socket is open and the client is authenticated; otherwise nothing is sent |
| Client.Connection.Disconnect | frontend/src/hooks/useWebSocket.ts:121-128 | a held socket is closed and dropped; both flags become false; chat log and files stay |
| Sync.FilesAfterStore | backend/src/index.ts:121-126 | storing parts under fresh ids extends the listing by their entries, in submission order, after every earlier file |
| Sync.HandshakeSyncsClient | backend/src/index.ts:228-242 | folding what a trusted socket receives on open leaves its client authenticated and showing exactly the server listing; an untrusted socket's client is unchanged |
| Sync.TokenAuthSyncsClient | backend/src/index.ts:253-269 | after `auth` with the server token, the client is authenticated and shows the listing; after any other token, it is unauthenticated and its lists are unchanged |
| Sync.UploadKeepsClientInSync | backend/src/index.ts:104-149 | a client on an authenticated socket that shows the server listing still shows it after any upload, failed or not; other clients are unchanged |
| Sync.ChatReachesClients | backend/src/index.ts:277-290 | a chat message appears once, at the end of every authenticated client's chat log, with the sender's clientId; other clients are unchanged |

## Left out

- The debug telemetry requests to `127.0.0.1:7244` are not modelled. They are fire-and-forget and change no state.
- `GET /api/network` and `GET /api/host-ip` are not modelled. They only read operating-system interfaces and the environment.
- Not modelled: CORS, static file serving, the `Bun.serve` upgrade plumbing (including the 400 on a failed upgrade) and JSON encoding. Messages are datatypes; an unparseable payload is one constructor.
- Byte contents are not modelled. Reading, writing and streaming files appear only as the blob path and the `failAt` outcome. The blob path leaves out the temporary-directory prefix.
- A `file` form field that is the empty string counts as absent, as the source's truthiness test treats it: it is `file = None`. A non-empty string in `file`, or any string in `files`, is not modelled separately. It fails when its bytes are read, so it is one more `failAt` position.
- RelayProps.DispositionRoundTrip: the read-back is by position in the value the server builds. Header syntax is not modelled. A client parser stops at the first `"`, so a filename containing `"` is not read back intact. A filename with CR, LF or characters above U+00FF cannot be set as a header value, and that download would plausibly fail with 500 instead of streaming.
- RelayProps.DownloadAfterUpload: the blob path is modelled as the string `lan-share-<id>-<name>`. The source joins it to the temporary directory with path normalisation. A filename with `..` segments can therefore make two uploads share one blob, and the later write then overwrites the earlier one. Path normalisation is not modelled.
- The model does not cover a send on a socket throwing in the middle of a broadcast.
- Relay.Upload: the three `new Date()` calls of one loop pass are one timestamp per file. Stored time, summary time and notice time therefore agree in the model. The `toISOString` string form is not modelled.
- Handlers are atomic and run one at a time, as the single-threaded event loop runs them. Interleaving of an upload's awaits with socket events is not modelled.
- `ws.data.ip` is always `'unknown'` and never read, so it is not modelled.
- The server ignores the `?token=` query on the socket URL. The model carries the token only in the client URL and the `auth` message, as the server reads it.
- Relay.Receive: the `message` field of a chat message is modelled as a string. A non-string value, which the server would forward as it is, is not modelled.
- Client.Connection.OnOpen, OnMessage, OnClose and OnError model the events of the socket the hook currently holds. Events arriving from an earlier, replaced socket are not modelled.
- Browser-driven `readyState` changes other than open and close, and the `Date` objects the hook builds from timestamps, are not modelled.
- The React components, `useAuth.ts`, the Vite config and the shared type declarations are not part of this model.
