// The server's state and handlers as pure functions: the file registry
// (`fileStorage`, a Map iterated in insertion order), the socket registry
// (`ws.data` per socket and the `connectedClients` set), and the handlers for
// socket open, socket message, socket close, upload, download and listing.
// Each handler maps a state to the next state and the messages it sends.

module Relay {
  import opened Protocol
  import Origin

  /** `ws.data` of one upgraded socket. */
  datatype Session = Session(clientId: ClientId, authenticated: bool)

  /** One `fileStorage` record. `path` names the blob written for the file. */
  datatype StoredFile = StoredFile(filename: string, size: nat, path: string, uploadedAt: Timestamp)

  /** store/order: the file map and its insertion order; sessions: `ws.data` of
      every socket ever upgraded; connected: `connectedClients` in insertion order. */
  datatype State = State(
    store: map<FileId, StoredFile>,
    order: seq<FileId>,
    sessions: map<ConnId, Session>,
    connected: seq<ConnId>)

  /** The next state and the sends a handler performed, in order. */
  datatype Outcome = Outcome(next: State, sent: seq<Delivery>)

  const Empty := State(map[], [], map[], [])

  /** Every connected socket has its `ws.data`. */
  predicate Wired(connected: seq<ConnId>, sessions: map<ConnId, Session>) {
    forall c :: c in connected ==> c in sessions
  }

  /** The insertion order names every stored file exactly once. */
  ghost predicate FilesValid(store: map<FileId, StoredFile>, order: seq<FileId>) {
    NoDup(order) && forall id :: id in order <==> id in store
  }

  ghost predicate Valid(s: State) {
    && FilesValid(s.store, s.order)
    && NoDup(s.connected)
    && Wired(s.connected, s.sessions)
    && (forall a, b :: a in s.sessions && b in s.sessions && a != b ==>
          s.sessions[a].clientId != s.sessions[b].clientId)
  }

  /** Once authenticated, a socket stays authenticated. */
  ghost predicate AuthKept(s: State, t: State) {
    forall c :: c in s.sessions && s.sessions[c].authenticated ==>
      c in t.sessions && t.sessions[c].authenticated
  }

  predicate FreshClientId(s: State, clientId: ClientId) {
    forall c :: c in s.sessions ==> s.sessions[c].clientId != clientId
  }

  // ---------------------------------------------------------------- listing

  function EntryOf(id: FileId, f: StoredFile): FileEntry {
    FileEntry(id, f.filename, f.size, f.uploadedAt)
  }

  /** The listing of the files `ids`, in that order. */
  function Entries(store: map<FileId, StoredFile>, ids: seq<FileId>): (r: seq<FileEntry>)
    requires forall id :: id in ids ==> id in store
    ensures |r| == |ids|
    ensures forall i :: 0 <= i < |ids| ==> r[i] == EntryOf(ids[i], store[ids[i]])
    decreases |ids|
  {
    if ids == [] then []
    else
      var n := |ids| - 1;
      Entries(store, ids[..n]) + [EntryOf(ids[n], store[ids[n]])]
  }

  /** GET /api/files and the `files_history` payload: every stored file, in
      insertion order. */
  function Listing(store: map<FileId, StoredFile>, order: seq<FileId>): (r: seq<FileEntry>)
    requires FilesValid(store, order)
    ensures |r| == |order| == |store|
    ensures forall i :: 0 <= i < |r| ==>
      (r[i].id == order[i] && order[i] in store && r[i] == EntryOf(order[i], store[order[i]]))
  {
    OrderCoversStore(store, order);
    Entries(store, order)
  }

  /** The listing of a server state. */
  function Files(s: State): (r: seq<FileEntry>)
    requires FilesValid(s.store, s.order)
  {
    Listing(s.store, s.order)
  }

  /** The store has exactly as many entries as the order, which names each once. */
  lemma OrderCoversStore(store: map<FileId, StoredFile>, order: seq<FileId>)
    requires FilesValid(store, order)
    ensures |order| == |store|
  {
    DistinctSeqSize(order);
    assert store.Keys == (set id | id in order);
  }

  lemma {:induction false} DistinctSeqSize(ids: seq<FileId>)
    requires NoDup(ids)
    ensures |set id | id in ids| == |ids|
    decreases |ids|
  {
    if ids != [] {
      var n := |ids| - 1;
      DistinctSeqSize(ids[..n]);
      assert (set id | id in ids) == (set id | id in ids[..n]) + {ids[n]};
      assert ids[n] !in ids[..n];
    }
  }

  // ---------------------------------------------------------------- fan-out

  /** One send of `msg` to each socket of `conns` whose session is authenticated,
      in `conns` order (the `for (const ws of connectedClients)` loops). */
  function Fanout(conns: seq<ConnId>, sessions: map<ConnId, Session>, msg: OutMsg): (r: seq<Delivery>)
    requires Wired(conns, sessions)
    ensures |r| <= |conns|
    decreases |conns|
  {
    if conns == [] then []
    else
      var n := |conns| - 1;
      var rest := Fanout(conns[..n], sessions, msg);
      if sessions[conns[n]].authenticated then rest + [Delivery(conns[n], msg)] else rest
  }

  // ---------------------------------------------------------------- sockets

  /** websocket.open: register the socket (unauthenticated), then authenticate it
      at once when its address is trusted, sending `auth_success` and the
      current listing to it alone. */
  function Open(s: State, conn: ConnId, clientId: ClientId, remoteAddress: string): (o: Outcome)
    requires Valid(s) && conn !in s.sessions && FreshClientId(s, clientId)
    ensures Valid(o.next) && AuthKept(s, o.next)
    ensures o.next.store == s.store && o.next.order == s.order
    ensures o.next.connected == s.connected + [conn]
    ensures conn in o.next.sessions && o.next.sessions[conn].clientId == clientId
    ensures o.next.sessions[conn].authenticated <==> Origin.IsLocalForWs(Origin.WsClientIp(remoteAddress))
    ensures forall c :: c in s.sessions ==> c in o.next.sessions && o.next.sessions[c] == s.sessions[c]
  {
    var trusted := Origin.IsLocalForWs(Origin.WsClientIp(remoteAddress));
    var next := s.(sessions := s.sessions[conn := Session(clientId, trusted)],
                   connected := s.connected + [conn]);
    Outcome(next, if trusted then [Delivery(conn, AuthSuccess), Delivery(conn, FilesHistory(Files(s)))] else [])
  }

  const NotAuthenticated := "Not authenticated"

  /** websocket.message on socket `conn`. */
  function Receive(s: State, authToken: string, conn: ConnId, m: InMsg, now: Timestamp): (o: Outcome)
    requires Valid(s) && conn in s.sessions
    ensures Valid(o.next) && AuthKept(s, o.next)
    ensures o.next.store == s.store && o.next.order == s.order && o.next.connected == s.connected
    ensures o.next.sessions.Keys == s.sessions.Keys
    ensures forall c :: c in s.sessions && c != conn ==> o.next.sessions[c] == s.sessions[c]
  {
    var sess := s.sessions[conn];
    if m.Unparseable? then Outcome(s, [])
    else if !sess.authenticated && m.Auth? then
      if m.token == Some(authToken) then
        Outcome(s.(sessions := s.sessions[conn := sess.(authenticated := true)]),
                [Delivery(conn, AuthSuccess), Delivery(conn, FilesHistory(Files(s)))])
      else
        Outcome(s, [Delivery(conn, AuthFailed)])
    else if !sess.authenticated then Outcome(s, [Delivery(conn, Error(NotAuthenticated))])
    else if m.ChatSend? then
      Outcome(s, Fanout(s.connected, s.sessions, ChatMessage(m.message, sess.clientId, now)))
    else Outcome(s, [])
  }

  /** `connectedClients.delete`: the sequence without `c`. */
  function Remove(conns: seq<ConnId>, c: ConnId): (r: seq<ConnId>)
    ensures forall x :: x in r <==> x in conns && x != c
    ensures c !in conns ==> r == conns
    ensures NoDup(conns) ==> NoDup(r)
    ensures |r| <= |conns|
    decreases |conns|
  {
    if conns == [] then []
    else
      var n := |conns| - 1;
      var rest := Remove(conns[..n], c);
      if conns[n] == c then rest
      else
        assert NoDup(conns) ==> conns[n] !in conns[..n];
        rest + [conns[n]]
  }

  /** websocket.close: the socket leaves the set; its `ws.data` is untouched. */
  function Close(s: State, conn: ConnId): (t: State)
    requires Valid(s)
    ensures Valid(t) && AuthKept(s, t)
    ensures conn !in t.connected
    ensures forall c :: c in t.connected <==> c in s.connected && c != conn
    ensures t.store == s.store && t.order == s.order && t.sessions == s.sessions
  {
    s.(connected := Remove(s.connected, conn))
  }

  // ---------------------------------------------------------------- upload

  /** One file part of a multipart upload. */
  datatype Part = Part(name: string, size: nat)

  /** The parsed form: `token`, all `files` parts, and the `file` part if any. */
  datatype Form = Form(token: Option<string>, files: seq<Part>, file: Option<Part>)

  /** One element of the upload response's `files` array. */
  datatype Summary = Summary(fileId: FileId, filename: string, size: nat, uploadedAt: Timestamp)

  /** 200 with the summaries, 400, or 500. */
  datatype UploadResponse = Uploaded(files: seq<Summary>) | BadRequest | ServerError

  datatype UploadResult = UploadResult(next: State, sent: seq<Delivery>, response: UploadResponse)

  /** The parts an upload processes: the `files` parts if there are any, else the
      single `file` part, else none. */
  function Selected(form: Form): (parts: seq<Part>)
    ensures |form.files| > 0 ==> parts == form.files
    ensures |form.files| == 0 && form.file.Some? ==> parts == [form.file.value]
    ensures parts == [] <==> |form.files| == 0 && form.file.None?
  {
    if |form.files| > 0 then form.files
    else if form.file.Some? then [form.file.value]
    else []
  }

  const BlobPrefix := "lan-share-"

  /** The blob name `lan-share-<id>-<name>` inside the temporary directory: it
      carries the file id right after the prefix and ends with the filename. */
  function BlobPath(id: FileId, name: string): (p: string)
    ensures |p| == |BlobPrefix| + |id| + 1 + |name|
    ensures p[..|BlobPrefix|] == BlobPrefix
    ensures p[|BlobPrefix|..|BlobPrefix| + |id|] == id
    ensures p[|p| - |name|..] == name
  {
    BlobPrefix + id + "-" + name
  }

  function StoredRecord(id: FileId, p: Part, at: Timestamp): StoredFile {
    StoredFile(p.name, p.size, BlobPath(id, p.name), at)
  }

  function SummaryOf(id: FileId, p: Part, at: Timestamp): Summary {
    Summary(id, p.name, p.size, at)
  }

  function Notice(id: FileId, p: Part, at: Timestamp): OutMsg {
    FileUploaded(id, p.name, p.size, at)
  }

  /** `ids` are pairwise distinct and none is already stored (randomUUID). */
  predicate FreshIds(store: map<FileId, StoredFile>, ids: seq<FileId>) {
    NoDup(ids) && forall i :: 0 <= i < |ids| ==> ids[i] !in store
  }

  lemma FreshPrefix(store: map<FileId, StoredFile>, ids: seq<FileId>, j: nat)
    requires FreshIds(store, ids) && j <= |ids|
    ensures FreshIds(store, ids[..j])
  {
  }

  datatype Stored = Stored(next: State, sent: seq<Delivery>, summaries: seq<Summary>)

  /** The upload loop run over `parts` with no failure: for each part in order,
      store it under its id, add its summary, notify authenticated sockets. */
  function StoreParts(s: State, parts: seq<Part>, ids: seq<FileId>, stamps: seq<Timestamp>): (r: Stored)
    requires Wired(s.connected, s.sessions)
    requires |ids| == |parts| && |stamps| == |parts|
    ensures r.next.sessions == s.sessions && r.next.connected == s.connected
    ensures r.next.order == s.order + ids
    ensures forall id :: id in r.next.store <==> id in s.store || id in ids
    ensures |r.summaries| == |parts|
    decreases |parts|
  {
    if parts == [] then Stored(s, [], [])
    else
      var n := |parts| - 1;
      var prev := StoreParts(s, parts[..n], ids[..n], stamps[..n]);
      var id := ids[n];
      assert ids == ids[..n] + [id];
      // `fileStorage.set` of a new id: one more entry, last in insertion order.
      var next := prev.next.(store := prev.next.store[id := StoredRecord(id, parts[n], stamps[n])],
                             order := prev.next.order + [id]);
      Stored(next,
             prev.sent + Fanout(next.connected, next.sessions, Notice(id, parts[n], stamps[n])),
             prev.summaries + [SummaryOf(id, parts[n], stamps[n])])
  }

  /** Storing parts under fresh ids keeps the state well formed. */
  lemma StorePartsValid(s: State, parts: seq<Part>, ids: seq<FileId>, stamps: seq<Timestamp>)
    requires Valid(s) && |ids| == |parts| && |stamps| == |parts|
    requires FreshIds(s.store, ids)
    ensures Valid(StoreParts(s, parts, ids, stamps).next)
  {
    var t := StoreParts(s, parts, ids, stamps).next;
    forall id | id in s.order
      ensures id !in ids
    {
      assert id in s.store;
    }
    NoDupConcat(s.order, ids);
    assert FilesValid(t.store, t.order);
  }

  lemma NoDupConcat(a: seq<FileId>, b: seq<FileId>)
    requires NoDup(a) && NoDup(b)
    requires forall x :: x in a ==> x !in b
    ensures NoDup(a + b)
  {
    forall i, j | 0 <= i < j < |a + b|
      ensures (a + b)[i] != (a + b)[j]
    {
      if i < |a| && j >= |a| {
        assert (a + b)[i] in a && (a + b)[j] == b[j - |a|];
      }
    }
  }

  /** Storing one more part extends the run over the earlier parts by one step. */
  lemma StorePartsStep(s: State, parts: seq<Part>, ids: seq<FileId>, stamps: seq<Timestamp>, i: nat)
    requires Wired(s.connected, s.sessions)
    requires i < |parts| <= |ids| && |stamps| == |ids|
    ensures var prev := StoreParts(s, parts[..i], ids[..i], stamps[..i]);
      var cur := StoreParts(s, parts[..i + 1], ids[..i + 1], stamps[..i + 1]);
      && cur.next.store == prev.next.store[ids[i] := StoredRecord(ids[i], parts[i], stamps[i])]
      && cur.next.order == prev.next.order + [ids[i]]
      && cur.sent == prev.sent + Fanout(s.connected, s.sessions, Notice(ids[i], parts[i], stamps[i]))
      && cur.summaries == prev.summaries + [SummaryOf(ids[i], parts[i], stamps[i])]
  {
    assert parts[..i + 1][..i] == parts[..i] && ids[..i + 1][..i] == ids[..i] && stamps[..i + 1][..i] == stamps[..i];
  }

  /** How many parts are stored before the first failing read or write. */
  function StoredCount(n: nat, failAt: Option<nat>): (k: nat)
    ensures k <= n
    ensures k < n <==> failAt.Some? && failAt.value < n
    ensures failAt.Some? && failAt.value < n ==> k == failAt.value
  {
    if failAt.Some? && failAt.value < n then failAt.value else n
  }

  /** POST /api/files. `body` is None when the multipart body cannot be parsed;
      `ids` and `stamps` supply randomUUID and the clock for each part; `failAt`
      is the index of the first part whose read or write throws, if any. */
  function Upload(s: State, authToken: string, body: Option<Form>, ids: seq<FileId>,
                  stamps: seq<Timestamp>, failAt: Option<nat>): (r: UploadResult)
    requires Valid(s)
    requires body.Some? ==> |Selected(body.value)| <= |ids|
    requires |stamps| == |ids| && FreshIds(s.store, ids)
    ensures Valid(r.next) && AuthKept(s, r.next)
    ensures r.next.sessions == s.sessions && r.next.connected == s.connected
    ensures r.response.Uploaded? ==> body.Some? && |r.response.files| == |Selected(body.value)|
  {
    match body
    case None => UploadResult(s, [], ServerError)
    case Some(form) =>
      var parts := Selected(form);
      if |parts| == 0 || form.token != Some(authToken) then UploadResult(s, [], BadRequest)
      else
        var k := StoredCount(|parts|, failAt);
        assert FreshIds(s.store, ids[..k]);
        StorePartsValid(s, parts[..k], ids[..k], stamps[..k]);
        var st := StoreParts(s, parts[..k], ids[..k], stamps[..k]);
        UploadResult(st.next, st.sent, if k < |parts| then ServerError else Uploaded(st.summaries))
  }

  /** An authorised upload with a non-empty selection is the upload loop run
      over the parts before the first failure. */
  lemma UploadRunsLoop(s: State, authToken: string, form: Form, ids: seq<FileId>,
                       stamps: seq<Timestamp>, failAt: Option<nat>)
    requires Valid(s)
    requires |Selected(form)| <= |ids|
    requires |stamps| == |ids| && FreshIds(s.store, ids)
    requires |Selected(form)| > 0 && form.token == Some(authToken)
    ensures var parts := Selected(form);
      var k := StoredCount(|parts|, failAt);
      FreshIds(s.store, ids[..k]) &&
      var st := StoreParts(s, parts[..k], ids[..k], stamps[..k]);
      Valid(st.next) &&
      Upload(s, authToken, Some(form), ids, stamps, failAt) ==
        UploadResult(st.next, st.sent, if k < |parts| then ServerError else Uploaded(st.summaries))
  {
    var parts := Selected(form);
    var k := StoredCount(|parts|, failAt);
    FreshPrefix(s.store, ids, k);
    StorePartsValid(s, parts[..k], ids[..k], stamps[..k]);
  }

  // ---------------------------------------------------------------- download

  datatype DownloadResponse =
    | NotFound
    | Attachment(contentType: string, disposition: string, path: string)

  const DispositionPrefix := "attachment; filename=\""

  /** The `Content-Disposition` value: the prefix, the filename as stored,
      and a closing quote. */
  function Disposition(filename: string): (h: string)
    ensures |h| == |DispositionPrefix| + |filename| + 1
    ensures h[..|DispositionPrefix|] == DispositionPrefix
    ensures h[|DispositionPrefix|..|h| - 1] == filename
    ensures h[|h| - 1] == '"'
  {
    DispositionPrefix + filename + "\""
  }

  /** GET /api/files/:id: 404 for an unknown id, else the blob as an attachment
      named after the stored filename. */
  function Download(s: State, id: FileId): (r: DownloadResponse)
    ensures r.NotFound? <==> id !in s.store
    ensures r.Attachment? ==>
      (r.contentType == "application/octet-stream" &&
       r.disposition == Disposition(s.store[id].filename) && r.path == s.store[id].path)
  {
    if id !in s.store then NotFound
    else
      var f := s.store[id];
      Attachment("application/octet-stream", Disposition(f.filename), f.path)
  }

  // ---------------------------------------------------------------- events

  /** Everything that can happen to the server, one handler run at a time. */
  datatype Event =
    | Connected(conn: ConnId, clientId: ClientId, remoteAddress: string)
    | Received(conn: ConnId, m: InMsg, now: Timestamp)
    | Disconnected(conn: ConnId)
    | UploadRequest(body: Option<Form>, ids: seq<FileId>, stamps: seq<Timestamp>, failAt: Option<nat>)

  /** The conditions under which the runtime delivers an event: a fresh socket
      with a fresh clientId, a message only on a connected socket, fresh file ids. */
  predicate Enabled(s: State, e: Event) {
    match e
    case Connected(conn, clientId, _) => conn !in s.sessions && FreshClientId(s, clientId)
    case Received(conn, _, _) => conn in s.connected && conn in s.sessions
    case Disconnected(_) => true
    case UploadRequest(body, ids, stamps, _) =>
      (body.Some? ==> |Selected(body.value)| <= |ids|) && |stamps| == |ids| && FreshIds(s.store, ids)
  }

  /** One handler run for the event: the next state and what it sent. */
  function Handle(s: State, authToken: string, e: Event): (o: Outcome)
    requires Valid(s) && Enabled(s, e)
    ensures Valid(o.next) && AuthKept(s, o.next)
  {
    match e
    case Connected(conn, clientId, addr) => Open(s, conn, clientId, addr)
    case Received(conn, m, now) => Receive(s, authToken, conn, m, now)
    case Disconnected(conn) => Outcome(Close(s, conn), [])
    case UploadRequest(body, ids, stamps, failAt) =>
      var r := Upload(s, authToken, body, ids, stamps, failAt);
      Outcome(r.next, r.sent)
  }

  /** The events handled in order: the final state and every send, in order;
      None if some event was not enabled. Consistency is kept throughout and
      a socket once authenticated stays so. */
  function Run(s: State, authToken: string, es: seq<Event>): (r: Option<Outcome>)
    requires Valid(s)
    ensures r.Some? ==> Valid(r.value.next) && AuthKept(s, r.value.next)
    decreases |es|
  {
    if es == [] then Some(Outcome(s, []))
    else if !Enabled(s, es[0]) then None
    else
      var o := Handle(s, authToken, es[0]);
      var rest := Run(o.next, authToken, es[1..]);
      if rest.None? then None else Some(Outcome(rest.value.next, o.sent + rest.value.sent))
  }
}
