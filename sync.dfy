// What a browser sees when it folds, with its `onmessage` reducer, the messages
// the server handlers send to its socket: the handshake leaves it
// authenticated with the server's listing, and uploads and chat keep its file
// list and chat log in step with the server.

module Sync {
  import opened Protocol
  import opened Relay
  import RelayProps
  import Client

  /** The listing entries of parts stored under `ids` at `stamps`. */
  function Announced(parts: seq<Part>, ids: seq<FileId>, stamps: seq<Timestamp>): (r: seq<FileEntry>)
    requires |ids| == |parts| && |stamps| == |parts|
    ensures |r| == |parts|
    ensures forall i :: 0 <= i < |parts| ==> r[i] == EntryOf(ids[i], StoredRecord(ids[i], parts[i], stamps[i]))
    decreases |parts|
  {
    if parts == [] then []
    else
      var n := |parts| - 1;
      Announced(parts[..n], ids[..n], stamps[..n]) + [EntryOf(ids[n], StoredRecord(ids[n], parts[n], stamps[n]))]
  }

  /** The server's `file_uploaded` notices are the client's announcements of the
      new listing entries. */
  lemma NoticesAnnounce(parts: seq<Part>, ids: seq<FileId>, stamps: seq<Timestamp>)
    requires |ids| == |parts| && |stamps| == |parts|
    ensures RelayProps.Notices(parts, ids, stamps) == Client.Notes(Announced(parts, ids, stamps))
  {
  }

  /** Storing parts under fresh ids extends the listing by their entries, in
      submission order, after every earlier file. */
  lemma {:induction false} FilesAfterStore(s: State, parts: seq<Part>, ids: seq<FileId>, stamps: seq<Timestamp>)
    requires Valid(s) && |ids| == |parts| && |stamps| == |parts| && FreshIds(s.store, ids)
    ensures Valid(StoreParts(s, parts, ids, stamps).next)
    ensures Files(StoreParts(s, parts, ids, stamps).next) == Files(s) + Announced(parts, ids, stamps)
    decreases |parts|
  {
    StorePartsValid(s, parts, ids, stamps);
    if parts == [] {
      assert Files(s) + [] == Files(s);
    } else {
      var n := |parts| - 1;
      var id := ids[n];
      var rec := StoredRecord(id, parts[n], stamps[n]);
      FreshPrefix(s.store, ids, n);
      FilesAfterStore(s, parts[..n], ids[..n], stamps[..n]);
      var prev := StoreParts(s, parts[..n], ids[..n], stamps[..n]).next;
      assert id !in ids[..n] && id !in s.store;
      RelayProps.ListingAppend(prev.store, prev.order, id, rec);
      var cur := StoreParts(s, parts, ids, stamps).next;
      assert cur.store == prev.store[id := rec] && cur.order == prev.order + [id];
      var e := EntryOf(id, rec);
      assert Files(cur) == Files(prev) + [e];
      var older := Announced(parts[..n], ids[..n], stamps[..n]);
      assert Announced(parts, ids, stamps) == older + [e];
      ConcatAssoc(Files(s), older, [e]);
    }
  }

  lemma ConcatAssoc(a: seq<FileEntry>, b: seq<FileEntry>, c: seq<FileEntry>)
    ensures (a + b) + c == a + (b + c)
  {
  }

  /** `auth_success` followed by a listing, sent to one socket. */
  lemma InboxAuthAndHistory(conn: ConnId, fs: seq<FileEntry>)
    ensures Inbox([Delivery(conn, AuthSuccess), Delivery(conn, FilesHistory(fs))], conn) ==
      [AuthSuccess, FilesHistory(fs)]
  {
    var a, b := Delivery(conn, AuthSuccess), Delivery(conn, FilesHistory(fs));
    InboxSnoc([a], b, conn);
    InboxSnoc([], a, conn);
    assert [a, b] == [a] + [b] && [a] == [] + [a];
  }

  /** Folding `auth_success` then a listing authenticates and shows the listing. */
  lemma FoldAuthAndHistory(v: Client.View, fs: seq<FileEntry>)
    ensures Client.Fold(v, [AuthSuccess, FilesHistory(fs)]) == v.(isAuthenticated := true, files := fs)
  {
    var ms := [AuthSuccess, FilesHistory(fs)];
    assert ms[..1] == [AuthSuccess] && [AuthSuccess][..0] == [];
  }

  /** On a trusted origin, the messages the new socket receives leave its
      client authenticated and showing exactly the server's listing. */
  lemma HandshakeSyncsClient(s: State, conn: ConnId, clientId: ClientId, remoteAddress: string, v: Client.View)
    requires Valid(s) && conn !in s.sessions && FreshClientId(s, clientId)
    ensures var o := Open(s, conn, clientId, remoteAddress);
      var w := Client.Fold(v, Inbox(o.sent, conn));
      && (o.next.sessions[conn].authenticated ==> w == v.(isAuthenticated := true, files := Files(o.next)))
      && (!o.next.sessions[conn].authenticated ==> w == v)
  {
    InboxAuthAndHistory(conn, Files(s));
    FoldAuthAndHistory(v, Files(s));
  }

  /** Sending the server's token leaves the client authenticated and showing
      the listing; any other token leaves it unauthenticated with its lists as
      they were. */
  lemma TokenAuthSyncsClient(s: State, authToken: string, conn: ConnId, token: Option<string>,
                             now: Timestamp, v: Client.View)
    requires Valid(s) && conn in s.connected && conn in s.sessions && !s.sessions[conn].authenticated
    ensures var o := Receive(s, authToken, conn, Auth(token), now);
      var w := Client.Fold(v, Inbox(o.sent, conn));
      && (token == Some(authToken) ==>
            (o.next.sessions[conn].authenticated && w == v.(isAuthenticated := true, files := Files(o.next))))
      && (token != Some(authToken) ==>
            (!o.next.sessions[conn].authenticated && w == v.(isAuthenticated := false)))
  {
    if token == Some(authToken) {
      RelayProps.WrongTokenThenRetry(s, authToken, conn, None, now);
      InboxAuthAndHistory(conn, Files(s));
      FoldAuthAndHistory(v, Files(s));
    } else {
      RelayProps.WrongTokenThenRetry(s, authToken, conn, token, now);
      InboxSnoc([], Delivery(conn, AuthFailed), conn);
      assert [Delivery(conn, AuthFailed)] == [] + [Delivery(conn, AuthFailed)];
      assert [AuthFailed][..0] == [];
    }
  }

  /** A client showing the server's listing on an authenticated socket still
      shows the server's listing after any upload, failed or not; any other
      socket's client is left unchanged. */
  lemma UploadKeepsClientInSync(s: State, authToken: string, form: Form, ids: seq<FileId>,
                                stamps: seq<Timestamp>, failAt: Option<nat>, c: ConnId, v: Client.View)
    requires Valid(s)
    requires |Selected(form)| <= |ids| && |stamps| == |ids| && FreshIds(s.store, ids)
    ensures var r := Upload(s, authToken, Some(form), ids, stamps, failAt);
      var w := Client.Fold(v, Inbox(r.sent, c));
      && (c in s.connected && s.sessions[c].authenticated && v.files == Files(s) ==> w.files == Files(r.next))
      && (!(c in s.connected && s.sessions[c].authenticated) ==> w == v)
  {
    var parts := Selected(form);
    var r := Upload(s, authToken, Some(form), ids, stamps, failAt);
    RelayProps.UploadNotifiesAuthenticatedOnly(s, authToken, form, ids, stamps, failAt, c);
    if parts != [] && form.token == Some(authToken) {
      var k := StoredCount(|parts|, failAt);
      UploadRunsLoop(s, authToken, form, ids, stamps, failAt);
      var st := StoreParts(s, parts[..k], ids[..k], stamps[..k]);
      assert r.next == st.next && r.sent == st.sent;
      assert |r.next.order| - |s.order| == k;
      if c in s.connected && s.sessions[c].authenticated && v.files == Files(s) {
        var added := Announced(parts[..k], ids[..k], stamps[..k]);
        assert Inbox(r.sent, c) == RelayProps.Notices(parts[..k], ids[..k], stamps[..k]);
        NoticesAnnounce(parts[..k], ids[..k], stamps[..k]);
        Client.FoldUploads(v, added);
        FilesAfterStore(s, parts[..k], ids[..k], stamps[..k]);
        assert Files(r.next) == Files(s) + added;
      }
    }
  }

  /** A chat message from an authenticated socket appears, once, at the end of
      the chat log of every authenticated client, carrying the sender's clientId;
      every other client is left unchanged. */
  lemma ChatReachesClients(s: State, authToken: string, conn: ConnId, text: string, now: Timestamp,
                           c: ConnId, v: Client.View)
    requires Valid(s) && conn in s.sessions && s.sessions[conn].authenticated
    ensures var o := Receive(s, authToken, conn, ChatSend(text), now);
      var w := Client.Fold(v, Inbox(o.sent, c));
      && (c in s.connected && s.sessions[c].authenticated ==>
            w == v.(messages := v.messages + [Client.ChatLine(text, s.sessions[conn].clientId, now)]))
      && (!(c in s.connected && s.sessions[c].authenticated) ==> w == v)
  {
    RelayProps.ChatReachesAuthenticatedOnly(s, authToken, conn, text, now, c);
    var m := ChatMessage(text, s.sessions[conn].clientId, now);
    assert [m][..0] == [];
  }
}
