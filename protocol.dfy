// Values exchanged between the lan-share server and its browser clients:
// file listing entries, the outbound and inbound real-time messages, and the
// per-recipient deliveries a server handler produces.

module Protocol {

  datatype Option<T> = None | Some(value: T)

  /** A file id, as produced by randomUUID on the server. */
  type FileId = string
  /** A session's clientId, a randomUUID chosen when the socket is upgraded. */
  type ClientId = string
  /** Identity of one real-time socket object (the `ws` handle). */
  type ConnId = nat
  /** A point in time (a JavaScript Date); only compared, never computed on. */
  type Timestamp = int

  /** An optional string JavaScript treats as true: present and non-empty. */
  predicate Truthy(h: Option<string>) {
    h.Some? && h.value != ""
  }

  /** One row of a file listing: `{id, filename, size, uploadedAt}`. */
  datatype FileEntry = FileEntry(id: FileId, filename: string, size: nat, uploadedAt: Timestamp)

  /** Messages the server sends over the real-time channel, tagged by `type`. */
  datatype OutMsg =
    | AuthSuccess
    | AuthFailed
    | Error(message: string)
    | FilesHistory(files: seq<FileEntry>)
    | FileUploaded(fileId: FileId, filename: string, size: nat, uploadedAt: Timestamp)
    | ChatMessage(message: string, sender: ClientId, timestamp: Timestamp)

  /** Messages a client sends. `token` is None when the field is missing or not a
      string; OtherType is any parsed object whose `type` is neither `auth` nor
      `chat_message`; Unparseable is a payload on which JSON parsing (or reading
      `type`) throws. */
  datatype InMsg =
    | Auth(token: Option<string>)
    | ChatSend(message: string)
    | OtherType
    | Unparseable

  /** One `send` of `msg` on the socket `to`. */
  datatype Delivery = Delivery(to: ConnId, msg: OutMsg)

  predicate NoDup<T(==)>(s: seq<T>) {
    forall i, j :: 0 <= i < j < |s| ==> s[i] != s[j]
  }

  /** The messages that socket `c` receives, in order, from a sequence of deliveries. */
  function Inbox(ds: seq<Delivery>, c: ConnId): (r: seq<OutMsg>)
    ensures |r| <= |ds|
    decreases |ds|
  {
    if ds == [] then []
    else
      var init := ds[..|ds| - 1];
      var last := ds[|ds| - 1];
      Inbox(init, c) + (if last.to == c then [last.msg] else [])
  }

  /** One more delivery adds its message to its recipient's inbox only. */
  lemma InboxSnoc(ds: seq<Delivery>, d: Delivery, c: ConnId)
    ensures Inbox(ds + [d], c) == Inbox(ds, c) + (if d.to == c then [d.msg] else [])
  {
    assert (ds + [d])[..|ds|] == ds;
  }

  /** A socket none of the deliveries is addressed to receives nothing. */
  lemma {:induction false} InboxOthers(ds: seq<Delivery>, c: ConnId)
    requires forall i :: 0 <= i < |ds| ==> ds[i].to != c
    ensures Inbox(ds, c) == []
    decreases |ds|
  {
    if ds != [] {
      InboxOthers(ds[..|ds| - 1], c);
    }
  }

  /** What a socket receives from two batches sent one after the other is what it
      receives from the first followed by what it receives from the second. */
  lemma {:induction false} InboxAppend(a: seq<Delivery>, b: seq<Delivery>, c: ConnId)
    ensures Inbox(a + b, c) == Inbox(a, c) + Inbox(b, c)
    decreases |b|
  {
    if b == [] {
      assert a + b == a;
    } else {
      var n := |b| - 1;
      assert (a + b)[..|a + b| - 1] == a + b[..n];
      assert (a + b)[|a + b| - 1] == b[n];
      InboxAppend(a, b[..n], c);
    }
  }
}
