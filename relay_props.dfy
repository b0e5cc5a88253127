// Properties of the server handlers: the authentication handshake, the
// fan-out to authenticated sockets only, removal on close, what an upload
// stores, answers and announces, and download after upload.

module RelayProps {
  import opened Protocol
  import opened Relay
  import Origin

  // ---------------------------------------------------------------- listing

  /** Storing a file under a new id appends its entry to the listing and leaves
      every earlier entry, and their order, as it was. */
  lemma ListingAppend(store: map<FileId, StoredFile>, order: seq<FileId>, id: FileId, f: StoredFile)
    requires FilesValid(store, order) && id !in store
    ensures FilesValid(store[id := f], order + [id])
    ensures Listing(store[id := f], order + [id]) == Listing(store, order) + [EntryOf(id, f)]
  {
    var order' := order + [id];
    assert id !in order;
    assert NoDup(order') by {
      forall i, j | 0 <= i < j < |order'|
        ensures order'[i] != order'[j]
      {
        if j == |order| {
          assert order'[i] in order;
        }
      }
    }
    var l := Listing(store, order);
    var l' := Listing(store[id := f], order');
    forall i | 0 <= i < |l'|
      ensures l'[i] == (l + [EntryOf(id, f)])[i]
    {
      if i < |order| {
        assert order'[i] == order[i] && order[i] != id;
      }
    }
  }

  // ---------------------------------------------------------------- fan-out

  /** A socket receives exactly one copy of a fanned-out message when it is in
      the set and authenticated, and nothing otherwise. */
  lemma {:induction false} InboxFanout(conns: seq<ConnId>, sessions: map<ConnId, Session>, msg: OutMsg, c: ConnId)
    requires Wired(conns, sessions) && NoDup(conns)
    ensures Inbox(Fanout(conns, sessions, msg), c) ==
      (if c in conns && sessions[c].authenticated then [msg] else [])
    decreases |conns|
  {
    if conns != [] {
      var n := |conns| - 1;
      var init, last := conns[..n], conns[n];
      var rest := Fanout(init, sessions, msg);
      InboxFanout(init, sessions, msg, c);
      assert c in conns <==> c in init || c == last;
      assert last !in init;
      var tail := if sessions[last].authenticated then [Delivery(last, msg)] else [];
      assert Fanout(conns, sessions, msg) == rest + tail;
      if sessions[last].authenticated {
        InboxSnoc(rest, Delivery(last, msg), c);
      } else {
        assert rest + tail == rest;
      }
    }
  }

  // ---------------------------------------------------------------- handshake

  /** A new socket joins the set; it is authenticated exactly when its address
      (loopback when absent) is `::1` or starts with `127.` or `172.`, and then
      it alone is sent `auth_success` followed by the full current listing. An
      untrusted socket is sent nothing. */
  lemma OpenHandshake(s: State, conn: ConnId, clientId: ClientId, remoteAddress: string)
    requires Valid(s) && conn !in s.sessions && FreshClientId(s, clientId)
    ensures var o := Open(s, conn, clientId, remoteAddress);
      var ip := Origin.WsClientIp(remoteAddress);
      && conn in o.next.connected
      && (o.next.sessions[conn].authenticated <==>
            ip == "::1" || Origin.StartsWith(ip, "127.") || Origin.StartsWith(ip, "172."))
      && (o.next.sessions[conn].authenticated ==>
            o.sent == [Delivery(conn, AuthSuccess), Delivery(conn, FilesHistory(Files(o.next)))])
      && (!o.next.sessions[conn].authenticated ==> o.sent == [])
  {
    var ip := Origin.WsClientIp(remoteAddress);
    Origin.WsTrustExtendsTokenTrust(ip);
    Origin.LoopbackIsPrefixOrV6(ip);
  }

  /** A wrong (or missing) token is answered by exactly one `auth_failed` and
      changes nothing, so the socket stays connected and may retry; the retry
      with the right token authenticates it and sends `auth_success` and the
      listing. */
  lemma WrongTokenThenRetry(s: State, authToken: string, conn: ConnId, bad: Option<string>, now: Timestamp)
    requires Valid(s) && conn in s.connected && conn in s.sessions
    requires !s.sessions[conn].authenticated && bad != Some(authToken)
    ensures Receive(s, authToken, conn, Auth(bad), now) == Outcome(s, [Delivery(conn, AuthFailed)])
    ensures var o := Receive(s, authToken, conn, Auth(Some(authToken)), now);
      && o.next.sessions[conn].authenticated
      && conn in o.next.connected
      && o.sent == [Delivery(conn, AuthSuccess), Delivery(conn, FilesHistory(Files(o.next)))]
  {
  }

  /** Before authentication, every parsed message other than `auth` is answered
      by one `error` "Not authenticated" and changes nothing. */
  lemma UnauthenticatedRejected(s: State, authToken: string, conn: ConnId, m: InMsg, now: Timestamp)
    requires Valid(s) && conn in s.sessions && !s.sessions[conn].authenticated
    requires !m.Auth? && !m.Unparseable?
    ensures Receive(s, authToken, conn, m, now) == Outcome(s, [Delivery(conn, Error("Not authenticated"))])
  {
  }

  /** A payload that does not parse is dropped: no reply, no change. An `auth`
      message on an already authenticated socket is ignored in the same way. */
  lemma IgnoredMessages(s: State, authToken: string, conn: ConnId, m: InMsg, now: Timestamp)
    requires Valid(s) && conn in s.sessions
    requires m.Unparseable? || (s.sessions[conn].authenticated && !m.ChatSend?)
    ensures Receive(s, authToken, conn, m, now) == Outcome(s, [])
  {
  }

  /** A chat message from an authenticated socket reaches, exactly once, every
      socket in the set that is authenticated (the sender included), carrying the
      sender's clientId; every other socket receives nothing. */
  lemma ChatReachesAuthenticatedOnly(s: State, authToken: string, conn: ConnId, text: string, now: Timestamp, c: ConnId)
    requires Valid(s) && conn in s.sessions && s.sessions[conn].authenticated
    ensures var o := Receive(s, authToken, conn, ChatSend(text), now);
      && o.next == s
      && Inbox(o.sent, c) ==
           (if c in s.connected && s.sessions[c].authenticated
            then [ChatMessage(text, s.sessions[conn].clientId, now)] else [])
  {
    InboxFanout(s.connected, s.sessions, ChatMessage(text, s.sessions[conn].clientId, now), c);
  }

  // ---------------------------------------------------------------- close

  /** Closing removes the socket; closing it again, or closing a socket that is
      not in the set, changes nothing. */
  lemma CloseIdempotent(s: State, conn: ConnId)
    requires Valid(s)
    ensures Close(Close(s, conn), conn) == Close(s, conn)
    ensures conn !in s.connected ==> Close(s, conn) == s
  {
  }

  /** A socket whose record remains but which has left the set is sent nothing
      by any handler, and stays out of the set. */
  lemma HandleSkipsClosed(s: State, authToken: string, e: Event, conn: ConnId)
    requires Valid(s) && Enabled(s, e) && conn in s.sessions && conn !in s.connected
    ensures var o := Handle(s, authToken, e);
      && conn in o.next.sessions && conn !in o.next.connected
      && Inbox(o.sent, conn) == []
  {
    match e
    case Connected(c, clientId, addr) =>
      InboxOthers(Open(s, c, clientId, addr).sent, conn);
    case Received(c, m, now) =>
      var sess := s.sessions[c];
      if m.ChatSend? && sess.authenticated {
        InboxFanout(s.connected, s.sessions, ChatMessage(m.message, sess.clientId, now), conn);
      } else {
        InboxOthers(Receive(s, authToken, c, m, now).sent, conn);
      }
    case Disconnected(_) =>
    case UploadRequest(body, ids, stamps, failAt) =>
      if body.Some? {
        UploadNotifiesAuthenticatedOnly(s, authToken, body.value, ids, stamps, failAt, conn);
      }
  }

  /** Over any run of handlers, such a socket is sent nothing and stays out of the set. */
  lemma {:induction false} RunSkipsClosed(s: State, authToken: string, es: seq<Event>, conn: ConnId)
    requires Valid(s) && conn in s.sessions && conn !in s.connected
    ensures var r := Run(s, authToken, es);
      r.Some? ==>
        && conn in r.value.next.sessions && conn !in r.value.next.connected
        && Inbox(r.value.sent, conn) == []
    decreases |es|
  {
    if es != [] && Enabled(s, es[0]) {
      var o := Handle(s, authToken, es[0]);
      HandleSkipsClosed(s, authToken, es[0], conn);
      RunSkipsClosed(o.next, authToken, es[1..], conn);
      var rest := Run(o.next, authToken, es[1..]);
      if rest.Some? {
        InboxAppend(o.sent, rest.value.sent, conn);
      }
    }
  }

  /** After a socket closes, nothing any later handler sends reaches it, and
      no broadcast in any later state does either. */
  lemma ClosedReceivesNothingLater(s: State, authToken: string, conn: ConnId, es: seq<Event>, msg: OutMsg)
    requires Valid(s) && conn in s.sessions
    ensures var r := Run(Close(s, conn), authToken, es);
      r.Some? ==>
        && Inbox(r.value.sent, conn) == []
        && Inbox(Fanout(r.value.next.connected, r.value.next.sessions, msg), conn) == []
  {
    RunSkipsClosed(Close(s, conn), authToken, es, conn);
    var r := Run(Close(s, conn), authToken, es);
    if r.Some? {
      InboxFanout(r.value.next.connected, r.value.next.sessions, msg, conn);
    }
  }

  // ---------------------------------------------------------------- upload

  /** After storing `parts`, every earlier file is unchanged and each new id maps
      to the record of its part. */
  lemma StorePartsRecords(s: State, parts: seq<Part>, ids: seq<FileId>, stamps: seq<Timestamp>)
    requires Wired(s.connected, s.sessions) && |ids| == |parts| && |stamps| == |parts| && FreshIds(s.store, ids)
    ensures var r := StoreParts(s, parts, ids, stamps);
      && (forall id :: id in s.store ==> r.next.store[id] == s.store[id])
      && (forall i :: 0 <= i < |ids| ==> r.next.store[ids[i]] == StoredRecord(ids[i], parts[i], stamps[i]))
  {
    forall id | id in s.store {
      StorePartsKeepsStored(s, parts, ids, stamps, id);
    }
    forall i | 0 <= i < |ids| {
      StorePartsRecordAt(s, parts, ids, stamps, i);
    }
  }

  /** A file stored before the upload, under an id not among the new ones, keeps its record. */
  lemma {:induction false} StorePartsKeepsStored(s: State, parts: seq<Part>, ids: seq<FileId>, stamps: seq<Timestamp>, id: FileId)
    requires Wired(s.connected, s.sessions) && |ids| == |parts| && |stamps| == |parts|
    requires id in s.store && id !in ids
    ensures StoreParts(s, parts, ids, stamps).next.store[id] == s.store[id]
    decreases |parts|
  {
    if parts != [] {
      var n := |parts| - 1;
      assert id !in ids[..n] && id != ids[n];
      StorePartsKeepsStored(s, parts[..n], ids[..n], stamps[..n], id);
      var prev := StoreParts(s, parts[..n], ids[..n], stamps[..n]).next;
      assert StoreParts(s, parts, ids, stamps).next.store == prev.store[ids[n] := StoredRecord(ids[n], parts[n], stamps[n])];
    }
  }

  /** When the new ids are distinct, the i-th id maps to the record of the i-th part. */
  lemma {:induction false} StorePartsRecordAt(s: State, parts: seq<Part>, ids: seq<FileId>, stamps: seq<Timestamp>, i: nat)
    requires Wired(s.connected, s.sessions) && |ids| == |parts| && |stamps| == |parts|
    requires NoDup(ids) && i < |ids|
    ensures StoreParts(s, parts, ids, stamps).next.store[ids[i]] == StoredRecord(ids[i], parts[i], stamps[i])
    decreases |parts|
  {
    var n := |parts| - 1;
    var prev := StoreParts(s, parts[..n], ids[..n], stamps[..n]).next;
    assert StoreParts(s, parts, ids, stamps).next.store == prev.store[ids[n] := StoredRecord(ids[n], parts[n], stamps[n])];
    if i < n {
      assert ids[..n][i] == ids[i] && parts[..n][i] == parts[i] && stamps[..n][i] == stamps[i];
      assert ids[i] != ids[n];
      StorePartsRecordAt(s, parts[..n], ids[..n], stamps[..n], i);
    }
  }

  /** The response lists one summary per stored part, in submission order. */
  lemma {:induction false} StorePartsSummaries(s: State, parts: seq<Part>, ids: seq<FileId>, stamps: seq<Timestamp>)
    requires Wired(s.connected, s.sessions) && |ids| == |parts| && |stamps| == |parts|
    ensures var r := StoreParts(s, parts, ids, stamps);
      forall i :: 0 <= i < |parts| ==> r.summaries[i] == SummaryOf(ids[i], parts[i], stamps[i])
    decreases |parts|
  {
    if parts != [] {
      var n := |parts| - 1;
      StorePartsSummaries(s, parts[..n], ids[..n], stamps[..n]);
      var prev := StoreParts(s, parts[..n], ids[..n], stamps[..n]);
      var r := StoreParts(s, parts, ids, stamps);
      assert r.summaries == prev.summaries + [SummaryOf(ids[n], parts[n], stamps[n])];
      forall i | 0 <= i < |parts|
        ensures r.summaries[i] == SummaryOf(ids[i], parts[i], stamps[i])
      {
        if i < n {
          assert r.summaries[i] == prev.summaries[i];
          assert ids[..n][i] == ids[i] && parts[..n][i] == parts[i] && stamps[..n][i] == stamps[i];
        }
      }
    }
  }

  /** The `file_uploaded` notifications for `parts`, in order. */
  function Notices(parts: seq<Part>, ids: seq<FileId>, stamps: seq<Timestamp>): (r: seq<OutMsg>)
    requires |ids| == |parts| && |stamps| == |parts|
    ensures |r| == |parts|
    ensures forall i :: 0 <= i < |parts| ==> r[i] == Notice(ids[i], parts[i], stamps[i])
    decreases |parts|
  {
    if parts == [] then []
    else
      var n := |parts| - 1;
      Notices(parts[..n], ids[..n], stamps[..n]) + [Notice(ids[n], parts[n], stamps[n])]
  }

  /** Each authenticated socket in the set receives one notification per stored
      part, in order; every other socket receives none. */
  lemma {:induction false} StorePartsNotifies(s: State, parts: seq<Part>, ids: seq<FileId>, stamps: seq<Timestamp>, c: ConnId)
    requires Wired(s.connected, s.sessions) && NoDup(s.connected) && |ids| == |parts| && |stamps| == |parts|
    ensures Inbox(StoreParts(s, parts, ids, stamps).sent, c) ==
      (if c in s.connected && s.sessions[c].authenticated then Notices(parts, ids, stamps) else [])
    decreases |parts|
  {
    if parts != [] {
      var n := |parts| - 1;
      StorePartsNotifies(s, parts[..n], ids[..n], stamps[..n], c);
      var prev := StoreParts(s, parts[..n], ids[..n], stamps[..n]);
      var msg := Notice(ids[n], parts[n], stamps[n]);
      InboxAppend(prev.sent, Fanout(s.connected, s.sessions, msg), c);
      InboxFanout(s.connected, s.sessions, msg, c);
    }
  }

  /** An upload with no usable file or with a token other than the server's is
      answered 400 and changes nothing and notifies nobody; an unparseable body
      is answered 500 in the same way. */
  lemma UploadRejected(s: State, authToken: string, body: Option<Form>, ids: seq<FileId>,
                       stamps: seq<Timestamp>, failAt: Option<nat>)
    requires Valid(s)
    requires body.Some? ==> |Selected(body.value)| <= |ids|
    requires |stamps| == |ids| && FreshIds(s.store, ids)
    requires body.None? || Selected(body.value) == [] || body.value.token != Some(authToken)
    ensures Upload(s, authToken, body, ids, stamps, failAt) ==
      UploadResult(s, [], if body.None? then ServerError else BadRequest)
  {
  }

  /** An accepted upload stores, in submission order and under fresh ids, every
      part before the first failing one (all parts when none fails), keeping
      every earlier file untouched. */
  lemma UploadStoresPrefix(s: State, authToken: string, form: Form, ids: seq<FileId>,
                           stamps: seq<Timestamp>, failAt: Option<nat>)
    requires Valid(s)
    requires |Selected(form)| <= |ids| && |stamps| == |ids| && FreshIds(s.store, ids)
    requires Selected(form) != [] && form.token == Some(authToken)
    ensures var parts := Selected(form);
      var k := StoredCount(|parts|, failAt);
      var r := Upload(s, authToken, Some(form), ids, stamps, failAt);
      && r.next.order == s.order + ids[..k]
      && |r.next.store| == |s.store| + k
      && (forall id :: id in s.store ==> id in r.next.store && r.next.store[id] == s.store[id])
      && (forall i :: 0 <= i < k ==>
            ids[i] in r.next.store && r.next.store[ids[i]] == StoredRecord(ids[i], parts[i], stamps[i]))
  {
    var parts := Selected(form);
    var k := StoredCount(|parts|, failAt);
    UploadRunsLoop(s, authToken, form, ids, stamps, failAt);
    var st := StoreParts(s, parts[..k], ids[..k], stamps[..k]);
    StorePartsRecords(s, parts[..k], ids[..k], stamps[..k]);
    OrderCoversStore(s.store, s.order);
    OrderCoversStore(st.next.store, st.next.order);
    forall i | 0 <= i < k
      ensures ids[i] in st.next.store && st.next.store[ids[i]] == StoredRecord(ids[i], parts[i], stamps[i])
    {
      assert ids[..k][i] == ids[i] && parts[..k][i] == parts[i] && stamps[..k][i] == stamps[i];
    }
  }

  /** An accepted upload is answered 200 with one summary per part, in
      submission order, when every part was stored, and 500 otherwise. */
  lemma UploadResponds(s: State, authToken: string, form: Form, ids: seq<FileId>,
                       stamps: seq<Timestamp>, failAt: Option<nat>)
    requires Valid(s)
    requires |Selected(form)| <= |ids| && |stamps| == |ids| && FreshIds(s.store, ids)
    requires Selected(form) != [] && form.token == Some(authToken)
    ensures var parts := Selected(form);
      var r := Upload(s, authToken, Some(form), ids, stamps, failAt);
      && (r.response == ServerError <==> failAt.Some? && failAt.value < |parts|)
      && (r.response.Uploaded? ==>
            |r.response.files| == |parts| &&
            forall i :: 0 <= i < |parts| ==>
              r.response.files[i] == Summary(ids[i], parts[i].name, parts[i].size, stamps[i]))
  {
    var parts := Selected(form);
    var k := StoredCount(|parts|, failAt);
    UploadRunsLoop(s, authToken, form, ids, stamps, failAt);
    var st := StoreParts(s, parts[..k], ids[..k], stamps[..k]);
    if k == |parts| {
      StorePartsSummaries(s, parts[..k], ids[..k], stamps[..k]);
      assert parts[..k] == parts;
      forall i | 0 <= i < |parts|
        ensures st.summaries[i] == Summary(ids[i], parts[i].name, parts[i].size, stamps[i])
      {
        assert ids[..k][i] == ids[i] && stamps[..k][i] == stamps[i];
      }
    }
  }

  /** Each authenticated socket in the set receives one `file_uploaded` per
      stored part, in submission order; unauthenticated and closed sockets
      receive none. */
  lemma UploadNotifiesAuthenticatedOnly(s: State, authToken: string, form: Form, ids: seq<FileId>,
                                        stamps: seq<Timestamp>, failAt: Option<nat>, c: ConnId)
    requires Valid(s)
    requires |Selected(form)| <= |ids| && |stamps| == |ids| && FreshIds(s.store, ids)
    ensures var r := Upload(s, authToken, Some(form), ids, stamps, failAt);
      var k := |r.next.order| - |s.order|;
      && 0 <= k <= |Selected(form)|
      && Inbox(r.sent, c) ==
           (if c in s.connected && s.sessions[c].authenticated
            then Notices(Selected(form)[..k], ids[..k], stamps[..k]) else [])
  {
    var parts := Selected(form);
    if parts != [] && form.token == Some(authToken) {
      var k := StoredCount(|parts|, failAt);
      UploadRunsLoop(s, authToken, form, ids, stamps, failAt);
      StorePartsNotifies(s, parts[..k], ids[..k], stamps[..k], c);
    } else {
      assert parts[..0] == [] && ids[..0] == [] && stamps[..0] == [];
    }
  }

  // ---------------------------------------------------------------- download

  /** The filename carried by a `Content-Disposition` value built by Disposition. */
  function DispositionFilename(h: string): (r: Option<string>)
    ensures r.Some? ==> Disposition(r.value) == h
  {
    if |h| > |DispositionPrefix| && h[..|DispositionPrefix|] == DispositionPrefix && h[|h| - 1] == '"'
    then
      assert h == h[..|DispositionPrefix|] + h[|DispositionPrefix|..|h| - 1] + [h[|h| - 1]];
      Some(h[|DispositionPrefix|..|h| - 1])
    else None
  }

  /** The download header names the file exactly as uploaded, whatever its characters. */
  lemma DispositionRoundTrip(filename: string)
    ensures DispositionFilename(Disposition(filename)) == Some(filename)
  {
    var h := Disposition(filename);
    assert h[..|DispositionPrefix|] == DispositionPrefix;
    assert h[|DispositionPrefix|..|h| - 1] == filename;
  }

  /** Right after an upload, each stored part downloads as an attachment named
      after the part, read from its own blob; an id never stored is 404. */
  lemma DownloadAfterUpload(s: State, authToken: string, form: Form, ids: seq<FileId>,
                            stamps: seq<Timestamp>, failAt: Option<nat>, i: nat, unknown: FileId)
    requires Valid(s)
    requires |Selected(form)| <= |ids| && |stamps| == |ids| && FreshIds(s.store, ids)
    requires Selected(form) != [] && form.token == Some(authToken)
    requires i < StoredCount(|Selected(form)|, failAt)
    requires unknown !in s.store && unknown !in ids
    ensures var r := Upload(s, authToken, Some(form), ids, stamps, failAt);
      var p := Selected(form)[i];
      && Download(r.next, ids[i]) == Attachment("application/octet-stream", Disposition(p.name), BlobPath(ids[i], p.name))
      && DispositionFilename(Download(r.next, ids[i]).disposition) == Some(p.name)
      && Download(r.next, unknown) == NotFound
  {
    UploadStoresPrefix(s, authToken, form, ids, stamps, failAt);
    DispositionRoundTrip(Selected(form)[i].name);
    var r := Upload(s, authToken, Some(form), ids, stamps, failAt);
    var k := StoredCount(|Selected(form)|, failAt);
    assert unknown !in ids[..k];
    assert unknown !in r.next.order;
  }
}
