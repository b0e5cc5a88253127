// The server process: `fileStorage`, the `ws.data` records and the
// `connectedClients` set as fields of one object, updated in place by the
// socket and upload handlers. Each handler is proved to do what the
// corresponding function of Relay describes.

module LanShareServer {
  import opened Protocol
  import Origin
  import Relay

  class Server {
    /** AUTH_TOKEN, fixed for the life of the process. */
    const authToken: string
    var store: map<FileId, Relay.StoredFile>
    var order: seq<FileId>
    var sessions: map<ConnId, Relay.Session>
    var connected: seq<ConnId>

    function Abstract(): Relay.State
      reads this
    {
      Relay.State(store, order, sessions, connected)
    }

    ghost predicate Valid()
      reads this
    {
      Relay.Valid(Abstract())
    }

    constructor (authToken: string)
      ensures Valid() && Abstract() == Relay.Empty && this.authToken == authToken
    {
      this.authToken := authToken;
      store, order := map[], [];
      sessions, connected := map[], [];
    }

    /** Send `msg` to every socket of the set whose session is authenticated. */
    method Broadcast(msg: OutMsg) returns (sent: seq<Delivery>)
      requires Relay.Wired(connected, sessions)
      ensures sent == Relay.Fanout(connected, sessions, msg)
    {
      sent := [];
      var i := 0;
      while i < |connected|
        invariant 0 <= i <= |connected|
        invariant sent == Relay.Fanout(connected[..i], sessions, msg)
      {
        var c := connected[i];
        assert connected[..i + 1][..i] == connected[..i];
        if sessions[c].authenticated {
          sent := sent + [Delivery(c, msg)];
        }
        i := i + 1;
      }
      assert connected[..i] == connected;
    }

    /** websocket.open for the freshly upgraded socket `conn`. */
    method Open(conn: ConnId, clientId: ClientId, remoteAddress: string) returns (sent: seq<Delivery>)
      requires Valid() && conn !in sessions && Relay.FreshClientId(Abstract(), clientId)
      modifies this
      ensures Valid()
      ensures Relay.Outcome(Abstract(), sent) == Relay.Open(old(Abstract()), conn, clientId, remoteAddress)
    {
      // `ws.data` as set up by the upgrade, then registered with the socket.
      var data := Relay.Session(clientId, false);
      connected := connected + [conn];
      sent := [];
      var ip := Origin.WsClientIp(remoteAddress);
      if Origin.IsLocalForWs(ip) {
        data := data.(authenticated := true);
        sent := sent + [Delivery(conn, AuthSuccess)];
        sent := sent + [Delivery(conn, FilesHistory(Relay.Listing(store, order)))];
      }
      sessions := sessions[conn := data];
    }

    /** websocket.message on socket `conn`. */
    method Message(conn: ConnId, m: InMsg, now: Timestamp) returns (sent: seq<Delivery>)
      requires Valid() && conn in sessions
      modifies this
      ensures Valid()
      ensures Relay.Outcome(Abstract(), sent) == Relay.Receive(old(Abstract()), authToken, conn, m, now)
    {
      sent := [];
      if m.Unparseable? {
        return;
      }
      if !sessions[conn].authenticated && m.Auth? {
        if m.token == Some(authToken) {
          sessions := sessions[conn := sessions[conn].(authenticated := true)];
          sent := [Delivery(conn, AuthSuccess), Delivery(conn, FilesHistory(Relay.Listing(store, order)))];
        } else {
          sent := [Delivery(conn, AuthFailed)];
        }
        return;
      }
      if !sessions[conn].authenticated {
        sent := [Delivery(conn, Error(Relay.NotAuthenticated))];
        return;
      }
      if m.ChatSend? {
        sent := Broadcast(ChatMessage(m.message, sessions[conn].clientId, now));
      }
    }

    /** websocket.close: `connectedClients.delete(ws)`. */
    method Close(conn: ConnId)
      requires Valid()
      modifies this
      ensures Valid()
      ensures Abstract() == Relay.Close(old(Abstract()), conn)
    {
      var i := 0;
      var kept: seq<ConnId> := [];
      while i < |connected|
        invariant 0 <= i <= |connected|
        invariant kept == Relay.Remove(connected[..i], conn)
      {
        assert connected[..i + 1][..i] == connected[..i];
        if connected[i] != conn {
          kept := kept + [connected[i]];
        }
        i := i + 1;
      }
      assert connected[..i] == connected;
      connected := kept;
    }

    /** POST /api/files. */
    method Upload(body: Option<Relay.Form>, ids: seq<FileId>, stamps: seq<Timestamp>, failAt: Option<nat>)
      returns (response: Relay.UploadResponse, sent: seq<Delivery>)
      requires Valid()
      requires body.Some? ==> |Relay.Selected(body.value)| <= |ids|
      requires |stamps| == |ids| && Relay.FreshIds(store, ids)
      modifies this
      ensures Valid()
      ensures Relay.UploadResult(Abstract(), sent, response) ==
        Relay.Upload(old(Abstract()), authToken, body, ids, stamps, failAt)
    {
      if body.None? {
        return Relay.ServerError, [];
      }
      var form := body.value;
      var parts := Relay.Selected(form);
      if |parts| == 0 || form.token != Some(authToken) {
        return Relay.BadRequest, [];
      }
      Relay.UploadRunsLoop(Abstract(), authToken, form, ids, stamps, failAt);
      var summaries, failed;
      summaries, sent, failed := StoreEach(parts, ids, stamps, failAt);
      response := if failed then Relay.ServerError else Relay.Uploaded(summaries);
    }

    /** The upload handler's loop: store each part under its id, record its
        summary and notify the authenticated sockets, until the part at
        `failAt` throws; `failed` tells whether it did. */
    method StoreEach(parts: seq<Relay.Part>, ids: seq<FileId>, stamps: seq<Timestamp>, failAt: Option<nat>)
      returns (summaries: seq<Relay.Summary>, sent: seq<Delivery>, failed: bool)
      requires Valid()
      requires |parts| <= |ids| && |stamps| == |ids| && Relay.FreshIds(store, ids)
      modifies this
      ensures var k := Relay.StoredCount(|parts|, failAt);
        && failed == (k < |parts|)
        && Relay.Stored(Abstract(), sent, summaries) ==
             Relay.StoreParts(old(Abstract()), parts[..k], ids[..k], stamps[..k])
      ensures Valid()
    {
      ghost var s0 := Abstract();
      ghost var k := Relay.StoredCount(|parts|, failAt);
      summaries, sent, failed := [], [], false;
      var i := 0;
      ghost var st := Relay.StoreParts(s0, parts[..0], ids[..0], stamps[..0]);
      while i < |parts|
        invariant 0 <= i <= k <= |parts|
        invariant st == Relay.StoreParts(s0, parts[..i], ids[..i], stamps[..i])
        invariant store == st.next.store && order == st.next.order
        invariant sessions == s0.sessions && connected == s0.connected
        invariant sent == st.sent && summaries == st.summaries
      {
        if failAt == Some(i) {
          failed := true;
          Relay.FreshPrefix(s0.store, ids, i);
          Relay.StorePartsValid(s0, parts[..i], ids[..i], stamps[..i]);
          return;
        }
        assert i < k;
        var id := ids[i];
        Relay.StorePartsStep(s0, parts, ids, stamps, i);
        st := Relay.StoreParts(s0, parts[..i + 1], ids[..i + 1], stamps[..i + 1]);
        var notes := StoreOne(id, parts[i], stamps[i]);
        summaries := summaries + [Relay.SummaryOf(id, parts[i], stamps[i])];
        sent := sent + notes;
        i := i + 1;
      }
      assert i == k;
      Relay.FreshPrefix(s0.store, ids, k);
      Relay.StorePartsValid(s0, parts[..k], ids[..k], stamps[..k]);
    }

    /** One pass of the upload loop: `fileStorage.set` of the new id, then the
        `file_uploaded` broadcast. */
    method StoreOne(id: FileId, p: Relay.Part, at: Timestamp) returns (notes: seq<Delivery>)
      requires Relay.Wired(connected, sessions)
      modifies this
      ensures store == old(store)[id := Relay.StoredRecord(id, p, at)] && order == old(order) + [id]
      ensures sessions == old(sessions) && connected == old(connected)
      ensures notes == Relay.Fanout(connected, sessions, Relay.Notice(id, p, at))
    {
      store := store[id := Relay.StoredRecord(id, p, at)];
      order := order + [id];
      notes := Broadcast(Relay.Notice(id, p, at));
    }

    /** GET /api/files/:id. */
    method Download(id: FileId) returns (r: Relay.DownloadResponse)
      ensures r == Relay.Download(Abstract(), id)
      ensures r.NotFound? <==> id !in store
    {
      if id !in store {
        return Relay.NotFound;
      }
      var info := store[id];
      r := Relay.Attachment("application/octet-stream", Relay.Disposition(info.filename), info.path);
    }
  }
}
