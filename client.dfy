// The browser side of the real-time channel: the state the hook exposes
// (connection and authentication flags, chat log, file list), the reducer its
// `onmessage` switch applies to each server message, and the socket handle
// whose `connect`, `onopen`, `onclose`, `onerror`, `sendMessage` and
// `disconnect` handlers update that state.

module Client {
  import opened Protocol

  /** A received chat message as kept in the log. */
  datatype ChatLine = ChatLine(message: string, sender: ClientId, timestamp: Timestamp)

  /** The hook's state: `isConnected`, `isAuthenticated`, `messages`, `files`. */
  datatype View = View(isConnected: bool, isAuthenticated: bool, messages: seq<ChatLine>, files: seq<FileEntry>)

  const Initial := View(false, false, [], [])

  // ---------------------------------------------------------------- reducer

  /** The `onmessage` switch applied to one parsed server message. */
  function Step(v: View, m: OutMsg): (w: View)
    ensures w.isConnected == v.isConnected
    ensures v.messages <= w.messages && |w.messages| <= |v.messages| + 1
    ensures !m.FilesHistory? ==> v.files <= w.files && |w.files| <= |v.files| + 1
    ensures !(m.AuthSuccess? || m.AuthFailed? || m.Error?) ==> w.isAuthenticated == v.isAuthenticated
  {
    match m
    case AuthSuccess => v.(isAuthenticated := true)
    case AuthFailed => v.(isAuthenticated := false)
    case Error(_) => v.(isAuthenticated := false)
    case ChatMessage(text, sender, at) => v.(messages := v.messages + [ChatLine(text, sender, at)])
    case FileUploaded(id, name, size, at) => v.(files := v.files + [FileEntry(id, name, size, at)])
    case FilesHistory(fs) => v.(files := fs)
  }

  /** The state after the messages `ms`, received in order. */
  function Fold(v: View, ms: seq<OutMsg>): (w: View)
    ensures w.isConnected == v.isConnected
    ensures v.messages <= w.messages
    decreases |ms|
  {
    if ms == [] then v
    else Step(Fold(v, ms[..|ms| - 1]), ms[|ms| - 1])
  }

  /** The chat lines carried by `ms`, in order. */
  function Chats(ms: seq<OutMsg>): (r: seq<ChatLine>)
    ensures |r| <= |ms|
    decreases |ms|
  {
    if ms == [] then []
    else
      var last := ms[|ms| - 1];
      Chats(ms[..|ms| - 1]) + (if last.ChatMessage? then [ChatLine(last.message, last.sender, last.timestamp)] else [])
  }

  /** `auth_success`, `auth_failed` and `error` only set the flag: true for the
      first, false for the other two. */
  lemma AuthResponsesOnlyTouchFlag(v: View, m: OutMsg)
    requires m.AuthSuccess? || m.AuthFailed? || m.Error?
    ensures Step(v, m) == v.(isAuthenticated := m.AuthSuccess?)
  {
  }

  /** A chat message appends exactly one line, keeping every earlier line in order. */
  lemma ChatAppendsOne(v: View, text: string, sender: ClientId, at: Timestamp)
    ensures var w := Step(v, ChatMessage(text, sender, at));
      && |w.messages| == |v.messages| + 1
      && w.messages[..|v.messages|] == v.messages
      && w.messages[|v.messages|] == ChatLine(text, sender, at)
      && w.files == v.files && w.isAuthenticated == v.isAuthenticated
  {
  }

  /** A `file_uploaded` notice appends one entry whose id is the notice's fileId. */
  lemma FileUploadedAppendsEntry(v: View, id: FileId, name: string, size: nat, at: Timestamp)
    ensures var w := Step(v, FileUploaded(id, name, size, at));
      && |w.files| == |v.files| + 1
      && w.files[..|v.files|] == v.files
      && w.files[|v.files|].id == id
      && w.files[|v.files|] == FileEntry(id, name, size, at)
      && w.messages == v.messages && w.isAuthenticated == v.isAuthenticated
  {
  }

  /** `files_history` replaces the file list wholesale, whatever it held, so
      receiving the same history twice is the same as receiving it once. */
  lemma HistoryReplaces(v: View, u: View, fs: seq<FileEntry>)
    requires u.isConnected == v.isConnected && u.isAuthenticated == v.isAuthenticated && u.messages == v.messages
    ensures Step(v, FilesHistory(fs)).files == fs
    ensures Step(v, FilesHistory(fs)) == Step(u, FilesHistory(fs))
    ensures Step(Step(v, FilesHistory(fs)), FilesHistory(fs)) == Step(v, FilesHistory(fs))
  {
  }

  /** Receiving two batches one after the other is receiving their concatenation. */
  lemma {:induction false} FoldAppend(v: View, a: seq<OutMsg>, b: seq<OutMsg>)
    ensures Fold(v, a + b) == Fold(Fold(v, a), b)
    decreases |b|
  {
    if b == [] {
      assert a + b == a;
    } else {
      var n := |b| - 1;
      assert (a + b)[..|a + b| - 1] == a + b[..n];
      assert (a + b)[|a + b| - 1] == b[n];
      FoldAppend(v, a, b[..n]);
    }
  }

  /** The chat log after a batch is the earlier log followed by exactly the chat
      messages of the batch, in order: none is lost, duplicated or reordered. */
  lemma {:induction false} FoldChats(v: View, ms: seq<OutMsg>)
    ensures Fold(v, ms).messages == v.messages + Chats(ms)
    decreases |ms|
  {
    if ms != [] {
      FoldChats(v, ms[..|ms| - 1]);
    }
  }

  /** A run of `file_uploaded` notices appends the announced entries, in order,
      and touches nothing else. */
  lemma {:induction false} FoldUploads(v: View, ns: seq<FileEntry>)
    ensures Fold(v, Notes(ns)) == v.(files := v.files + ns)
    decreases |ns|
  {
    if ns != [] {
      var n := |ns| - 1;
      FoldUploads(v, ns[..n]);
      assert Notes(ns)[..n] == Notes(ns[..n]);
      assert ns == ns[..n] + [ns[n]];
    }
  }

  /** After a `files_history` followed by `file_uploaded` notices, the file list
      is the history followed by the announced entries, in order. */
  lemma FoldHistoryThenUploads(v: View, fs: seq<FileEntry>, ns: seq<FileEntry>)
    ensures Fold(v, [FilesHistory(fs)] + Notes(ns)).files == fs + ns
  {
    FoldAppend(v, [FilesHistory(fs)], Notes(ns));
    assert [FilesHistory(fs)][..0] == [];
    FoldUploads(Fold(v, [FilesHistory(fs)]), ns);
  }

  /** The `file_uploaded` notices announcing the entries `ns`, in order. */
  function Notes(ns: seq<FileEntry>): (r: seq<OutMsg>)
    ensures |r| == |ns|
    ensures forall i :: 0 <= i < |ns| ==>
      r[i] == FileUploaded(ns[i].id, ns[i].filename, ns[i].size, ns[i].uploadedAt)
    decreases |ns|
  {
    if ns == [] then []
    else
      var n := |ns| - 1;
      var e := ns[n];
      Notes(ns[..n]) + [FileUploaded(e.id, e.filename, e.size, e.uploadedAt)]
  }

  // ---------------------------------------------------------------- the socket

  /** `WebSocket.readyState`. */
  datatype ReadyState = Connecting | Open | Closing | Closed

  /** The socket `wsRef.current` holds: the URL it was opened with, the token
      captured by its `onopen` handler, and its ready state. */
  datatype Socket = Socket(url: string, authToken: Option<string>, state: ReadyState)

  const QueryPrefix := "?token="

  /** The socket URL: scheme by page protocol, the page host, path `/ws`, and a
      `?token=` query only when a token is supplied. */
  function SocketUrl(secure: bool, host: string, authToken: Option<string>): (url: string)
    ensures var base := (if secure then "wss:" else "ws:") + "//" + host + "/ws";
      && |base| <= |url| && url[..|base|] == base
      && (Truthy(authToken) <==> |base| < |url|)
  {
    (if secure then "wss:" else "ws:") + "//" + host + "/ws" + (if Truthy(authToken) then QueryPrefix + authToken.value else "")
  }

  /** The token read back from a URL built by SocketUrl for the same page. */
  function QueryToken(url: string, secure: bool, host: string): (r: Option<string>)
    ensures r.Some? ==> url == SocketUrl(secure, host, None) + QueryPrefix + r.value
  {
    var base := SocketUrl(secure, host, None);
    var head := base + QueryPrefix;
    if |head| < |url| && url[..|head|] == head then Some(url[|head|..]) else None
  }

  /** The URL carries the token exactly when one is supplied, and then carries it verbatim. */
  lemma UrlCarriesTokenIffSupplied(secure: bool, host: string, authToken: Option<string>)
    ensures QueryToken(SocketUrl(secure, host, authToken), secure, host) ==
      (if Truthy(authToken) then authToken else None)
  {
    var base := SocketUrl(secure, host, None);
    var head := base + QueryPrefix;
    var url := SocketUrl(secure, host, authToken);
    if Truthy(authToken) {
      assert url == head + authToken.value;
      assert url[..|head|] == head;
      assert url[|head|..] == authToken.value;
    } else {
      assert url == base;
    }
  }

  /** The state of the hook together with the socket it holds. */
  class Connection {
    var socket: Option<Socket>
    var isConnected: bool
    var isAuthenticated: bool
    var messages: seq<ChatLine>
    var files: seq<FileEntry>

    function Snapshot(): View
      reads this
    {
      View(isConnected, isAuthenticated, messages, files)
    }

    constructor ()
      ensures Snapshot() == Initial && socket == None
    {
      socket := None;
      isConnected, isAuthenticated := false, false;
      messages, files := [], [];
    }

    /** `connect`: nothing when the held socket is already open; otherwise a new
        socket replaces the held one. Returns whether a socket was created. */
    method Connect(authToken: Option<string>, secure: bool, host: string) returns (created: bool)
      modifies this
      ensures created <==> !(old(socket).Some? && old(socket).value.state == Open)
      ensures created ==> socket == Some(Socket(SocketUrl(secure, host, authToken), authToken, Connecting))
      ensures !created ==> socket == old(socket)
      ensures Snapshot() == old(Snapshot())
    {
      if socket.Some? && socket.value.state == Open {
        return false;
      }
      socket := Some(Socket(SocketUrl(secure, host, authToken), authToken, Connecting));
      created := true;
    }

    /** `onopen` of the held socket: connected, and the `auth` message sent
        exactly when a token was supplied to `connect`. */
    method OnOpen() returns (sent: Option<InMsg>)
      requires socket.Some?
      modifies this
      ensures socket == Some(old(socket).value.(state := Open))
      ensures Snapshot() == old(Snapshot()).(isConnected := true)
      ensures sent.Some? <==> Truthy(old(socket).value.authToken)
      ensures sent.Some? ==> sent.value == Auth(old(socket).value.authToken)
    {
      socket := Some(socket.value.(state := Open));
      isConnected := true;
      sent := None;
      if Truthy(socket.value.authToken) {
        sent := Some(Auth(socket.value.authToken));
      }
    }

    /** `onmessage`: `m` is None when the payload does not parse or its type is
        not one the switch handles; it then changes nothing. */
    method OnMessage(m: Option<OutMsg>)
      modifies this
      ensures socket == old(socket)
      ensures Snapshot() == if m.Some? then Step(old(Snapshot()), m.value) else old(Snapshot())
    {
      if m.None? {
        return;
      }
      match m.value
      case AuthSuccess => isAuthenticated := true;
      case AuthFailed => isAuthenticated := false;
      case Error(_) => isAuthenticated := false;
      case ChatMessage(text, sender, at) => messages := messages + [ChatLine(text, sender, at)];
      case FileUploaded(id, name, size, at) => files := files + [FileEntry(id, name, size, at)];
      case FilesHistory(fs) => files := fs;
    }

    /** `onclose` of the held socket. */
    method OnClose()
      requires socket.Some?
      modifies this
      ensures socket == Some(old(socket).value.(state := Closed))
      ensures Snapshot() == old(Snapshot()).(isConnected := false, isAuthenticated := false)
    {
      socket := Some(socket.value.(state := Closed));
      isConnected, isAuthenticated := false, false;
    }

    /** `onerror` of the held socket: the flags drop; the socket is left to the browser. */
    method OnError()
      modifies this
      ensures socket == old(socket)
      ensures Snapshot() == old(Snapshot()).(isConnected := false, isAuthenticated := false)
    {
      isConnected, isAuthenticated := false, false;
    }

    /** `sendMessage`: a `chat_message` goes out only on an open socket of an
        authenticated client. */
    method SendMessage(text: string) returns (sent: Option<InMsg>)
      ensures sent.Some? <==> socket.Some? && socket.value.state == Open && isAuthenticated
      ensures sent.Some? ==> sent.value == ChatSend(text)
    {
      sent := None;
      if socket.Some? && socket.value.state == Open && isAuthenticated {
        sent := Some(ChatSend(text));
      }
    }

    /** `disconnect`: the held socket is closed and dropped; the flags drop; the
        chat log and file list stay. */
    method Disconnect() returns (closed: Option<Socket>)
      modifies this
      ensures socket == None
      ensures closed == if old(socket).Some? then Some(old(socket).value.(state := Closing)) else None
      ensures Snapshot() == old(Snapshot()).(isConnected := false, isAuthenticated := false)
    {
      closed := None;
      if socket.Some? {
        closed := Some(socket.value.(state := Closing));
        socket := None;
      }
      isConnected, isAuthenticated := false, false;
    }
  }
}
