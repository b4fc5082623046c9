/** A network of nodes: messages may be lost and overtake each other, deliveries and the steps of
    concurrent StoreFileLocalAndAnnounce calls interleave in any order. */
module Network {
  import opened Ids
  import opened Routing
  import opened Chunks
  import Files
  import opened Messages
  import opened Node

  type Peer = nat

  /** A message on its way. seenFrom is the address under which the receiver sees the sender. */
  datatype Packet = Packet(src: Peer, dst: Peer, seenFrom: string, m: Message)

  /** How far one StoreFileLocalAndAnnounce call of a peer has come. */
  datatype Upload =
    | Storing(peer: Peer, data: Bytes, size: nat, done: nat)   // blocks before done are in the store
    | Registered(peer: Peer, file: Files.FileMeta)             // metadata recorded, replicating
    | Announcing(peer: Peer, root: ChunkId)                    // own record made, sending records

  /** A GET_FILE_PROVIDERS request that a peer sent. */
  datatype Question = Question(peer: Peer, root: string)

  datatype Sys = Sys(
    nodes: map<Peer, NodeState>,
    net: seq<Packet>,
    uploads: map<nat, Upload>,
    used: set<string>,                  // request identifiers taken so far
    asked: map<string, Question>,
    found: set<(string, Contact)>)      // providers that clients were told, by the root they asked for

  datatype Event =
    | StartStore(upload: nat, peer: Peer, data: Bytes, size: nat)
    | PutBlock(upload: nat, fails: bool)
    | RegisterMeta(upload: nat)
    | AnnounceSelf(upload: nat, now: int)
    | SendRecord(upload: nat, dst: Peer, seenFrom: string)
    | ClientSend(peer: Peer, dst: Peer, seenFrom: string, m: Message)
    | AskProviders(peer: Peer, dst: Peer, seenFrom: string, req: string, root: ChunkId)
    | Deliver(i: nat, waiting: bool, clock: Clock, putFails: bool, closest: seq<Contact>, seenFrom: string)
    | Lose(i: nat)

  function Blocks(t: Upload): seq<Bytes>
    requires t.Storing? && t.size > 0
  {
    Files.Blocks(t.data, t.size)
  }

  /** The upload still has a block to store. */
  predicate HasBlock(s: Sys, upload: nat) {
    && upload in s.uploads && s.uploads[upload].Storing? && s.uploads[upload].size > 0
    && s.uploads[upload].done < |Blocks(s.uploads[upload])|
  }

  /** Any request or ping that a client may send besides provider records and provider questions. */
  predicate IsClientRequest(t: MsgType) {
    t == Ping || t == FindNode || t == StoreChunk || t == GetChunk || t == GetFileMeta
  }

  /** Whether the read loop hands a delivered message to a waiting caller instead of the node. */
  predicate Intercepted(m: Message, waiting: bool) {
    m.requestId != "" && IsResponseType(m.typ) && waiting
  }

  ghost predicate Enabled(h: Hash, s: Sys, e: Event) {
    match e
    case StartStore(upload, peer, data, size) =>
      upload !in s.uploads && peer in s.nodes && s.nodes[peer].store.Some? && size > 0
    case PutBlock(upload, _) =>
      HasBlock(s, upload)
    case RegisterMeta(upload) =>
      upload in s.uploads && s.uploads[upload].Storing? && s.uploads[upload].size > 0
      && s.uploads[upload].data != [] && s.uploads[upload].done == |Blocks(s.uploads[upload])|
    case AnnounceSelf(upload, _) => upload in s.uploads && s.uploads[upload].Registered?
    case SendRecord(upload, _, _) => upload in s.uploads && s.uploads[upload].Announcing?
    case ClientSend(peer, _, _, m) =>
      peer in s.nodes && m.from == s.nodes[peer].id && IsClientRequest(m.typ)
      && m.nodes == [] && m.providers == [] && (m.requestId == "" || m.requestId !in s.used)
    case AskProviders(peer, _, _, req, _) => peer in s.nodes && req != "" && req !in s.used
    case Deliver(i, waiting, clock, putFails, closest, _) =>
      i < |s.net| && s.net[i].dst in s.nodes
      && (!Intercepted(s.net[i].m, waiting) ==>
            ClosestTo(HandledNode(h, s, s.net[i], clock, putFails), s.net[i].m, closest))
    case Lose(i) => i < |s.net|
  }

  /** Replacing one node, and with it uploads and packets in flight. */
  function Update(s: Sys, peer: Peer, n: NodeState, uploads: map<nat, Upload>, net: seq<Packet>): Sys {
    s.(nodes := s.nodes[peer := n], uploads := uploads, net := net)
  }

  function SetUpload(s: Sys, upload: nat, t: Upload): Sys {
    s.(uploads := s.uploads[upload := t])
  }

  function Send(s: Sys, p: Packet): Sys {
    s.(net := s.net + [p])
  }

  function DropPacket(net: seq<Packet>, i: nat): seq<Packet>
    requires i < |net|
  {
    net[..i] + net[i + 1..]
  }

  /** The providers that a waiting caller takes from an answer. The answer's type is not looked at. */
  function Told(s: Sys, p: Packet): set<(string, Contact)> {
    if p.m.requestId in s.asked && s.asked[p.m.requestId].peer == p.dst && p.m.error == "" then
      set c | c in p.m.providers :: (s.asked[p.m.requestId].root, c)
    else {}
  }

  /** The node after a handled delivery, and the packets then in flight. */
  function HandledNode(h: Hash, s: Sys, p: Packet, clock: Clock, putFails: bool): NodeState
    requires p.dst in s.nodes
  {
    NodeAfter(h, s.nodes[p.dst], p.seenFrom, p.m, clock, putFails)
  }

  function HandledNet(h: Hash, s: Sys, i: nat, clock: Clock, putFails: bool, closest: seq<Contact>, seenFrom: string): seq<Packet>
    requires i < |s.net| && s.net[i].dst in s.nodes
  {
    var p := s.net[i];
    match ReplyTo(h, HandledNode(h, s, p, clock, putFails), p.m, putFails, closest)
    case Answer(m) => DropPacket(s.net, i) + [Packet(p.dst, p.src, seenFrom, m)]
    case _ => DropPacket(s.net, i)
  }

  function NextBlock(s: Sys, upload: nat): Bytes
    requires HasBlock(s, upload)
  {
    Blocks(s.uploads[upload])[s.uploads[upload].done]
  }

  /** The peer of a storing upload with the upload's next block in its store. */
  function NodeWithBlock(h: Hash, s: Sys, upload: nat): NodeState
    requires HasBlock(s, upload)
    requires s.uploads[upload].peer in s.nodes && s.nodes[s.uploads[upload].peer].store.Some?
  {
    var n := s.nodes[s.uploads[upload].peer];
    n.(store := Some(Put(h, n.store.value, NextBlock(s, upload))))
  }

  /** The next block of an upload is in its peer's store. */
  function AfterBlock(h: Hash, s: Sys, upload: nat): Sys
    requires HasBlock(s, upload)
    requires s.uploads[upload].peer in s.nodes && s.nodes[s.uploads[upload].peer].store.Some?
  {
    var t := s.uploads[upload];
    Update(s, t.peer, NodeWithBlock(h, s, upload), s.uploads[upload := t.(done := t.done + 1)], s.net)
  }

  ghost function Step(h: Hash, s: Sys, e: Event): Sys
    requires Enabled(h, s, e) && UploadsPlaced(s)
  {
    match e
    case StartStore(upload, peer, data, size) => SetUpload(s, upload, Storing(peer, data, size, 0))
    case PutBlock(upload, fails) =>
      if fails && h(NextBlock(s, upload)) !in s.nodes[s.uploads[upload].peer].store.value then s.(uploads := s.uploads - {upload})
      else AfterBlock(h, s, upload)
    case RegisterMeta(upload) =>
      var t := s.uploads[upload];
      var n := s.nodes[t.peer];
      var file := Files.MetaOf(h, t.data, t.size);
      Update(s, t.peer, n.(meta := AddMeta(n.meta, file)), s.uploads[upload := Registered(t.peer, file)], s.net)
    case AnnounceSelf(upload, now) =>
      var t := s.uploads[upload];
      var n := s.nodes[t.peer];
      var own := Contact(n.id, n.addr, now);
      Update(s, t.peer, n.(providers := AddProvider(n.providers, Name(t.file.root), own)),
             s.uploads[upload := Announcing(t.peer, t.file.root)], s.net)
    case SendRecord(upload, dst, seenFrom) =>
      var t := s.uploads[upload];
      Send(s, Packet(t.peer, dst, seenFrom, Message(StoreFileProvider, s.nodes[t.peer].id, fileRoot := Name(t.root))))
    case ClientSend(peer, dst, seenFrom, m) =>
      Send(s, Packet(peer, dst, seenFrom, m)).(used := s.used + {m.requestId})
    case AskProviders(peer, dst, seenFrom, req, root) =>
      Send(s, Packet(peer, dst, seenFrom,
                     Message(GetFileProviders, s.nodes[peer].id, requestId := req, fileRoot := Name(root))))
        .(used := s.used + {req}, asked := s.asked[req := Question(peer, Name(root))])
    case Deliver(i, waiting, clock, putFails, closest, seenFrom) =>
      if Intercepted(s.net[i].m, waiting) then s.(net := DropPacket(s.net, i), found := s.found + Told(s, s.net[i]))
      else Update(s, s.net[i].dst, HandledNode(h, s, s.net[i], clock, putFails), s.uploads,
                  HandledNet(h, s, i, clock, putFails, closest, seenFrom))
    case Lose(i) => s.(net := DropPacket(s.net, i))
  }

  /** Every upload belongs to a node with a store. */
  ghost predicate UploadsPlaced(s: Sys) {
    forall upload :: upload in s.uploads ==> s.uploads[upload].peer in s.nodes && s.nodes[s.uploads[upload].peer].store.Some?
  }

  // ---------- what a good node is ----------

  /** The metadata of some non-empty bytes cut with some chunk size. */
  ghost predicate Genuine(h: Hash, file: Files.FileMeta) {
    exists data: Bytes, size: nat :: size > 0 && data != [] && file == Files.MetaOf(h, data, size)
  }

  /** All chunks of the file are in the store, not empty, and hash to their identifiers. */
  ghost predicate Complete(h: Hash, store: Store, file: Files.FileMeta) {
    forall i :: 0 <= i < |file.chunks| ==>
      file.chunks[i].id in store && store[file.chunks[i].id] != [] && h(store[file.chunks[i].id]) == file.chunks[i].id
  }

  ghost predicate GoodStore(h: Hash, store: Store) {
    forall id :: id in store ==> store[id] != [] && h(store[id]) == id
  }

  /** The node can serve the file with this root. */
  ghost predicate Backed(h: Hash, n: NodeState, root: string) {
    && root in n.meta && n.store.Some?
    && Name(n.meta[root].root) == root && Genuine(h, n.meta[root]) && Complete(h, n.store.value, n.meta[root])
  }

  ghost predicate TableWithin(t: Table, ids: set<Id>) {
    forall i, c :: 0 <= i < ID_BITS && c in t[i] ==> c.id in ids
  }

  ghost predicate GoodNode(h: Hash, n: NodeState, ids: set<Id>) {
    && n.id in ids && WellFormed(n.id, n.table) && TableWithin(n.table, ids)
    && (n.store.Some? ==> GoodStore(h, n.store.value))
    && forall root :: root in n.meta ==> Backed(h, n, root)
  }

  // ---------- the invariant ----------

  function RealIds(s: Sys): set<Id> {
    set p | p in s.nodes :: s.nodes[p].id
  }

  /** Some node with this identifier has metadata for this root. */
  ghost predicate Holds(s: Sys, root: string, id: Id) {
    exists p :: p in s.nodes && s.nodes[p].id == id && root in s.nodes[p].meta
  }

  ghost predicate AllHold(s: Sys, root: string, list: seq<Contact>) {
    forall i :: 0 <= i < |list| ==> Holds(s, root, list[i].id)
  }

  ghost predicate GoodMessage(s: Sys, m: Message) {
    && m.from in RealIds(s)
    && (forall i :: 0 <= i < |m.nodes| ==> m.nodes[i].id in RealIds(s))
    && (m.typ == StoreFileProvider ==> Holds(s, m.fileRoot, m.from))
    && (m.providers != [] ==> m.typ == FileProviders && AllHold(s, m.fileRoot, m.providers))
    && (m.requestId != "" ==> m.requestId in s.used)
    && (m.requestId in s.asked && (m.typ == GetFileProviders || m.providers != []) ==> m.fileRoot == s.asked[m.requestId].root)
  }

  ghost predicate GoodUpload(h: Hash, s: Sys, t: Upload)
    requires t.peer in s.nodes && s.nodes[t.peer].store.Some?
  {
    var n := s.nodes[t.peer];
    match t
    case Storing(_, _, size, done) =>
      size > 0 && done <= |Blocks(t)| && forall k :: 0 <= k < done ==> h(Blocks(t)[k]) in n.store.value
    case Registered(_, file) => Name(file.root) in n.meta
    case Announcing(_, root) => Name(root) in n.meta
  }

  ghost predicate NodesGood(h: Hash, s: Sys) {
    forall p :: p in s.nodes ==> GoodNode(h, s.nodes[p], RealIds(s))
  }

  ghost predicate RecordsGood(s: Sys) {
    forall p, root :: p in s.nodes && root in s.nodes[p].providers ==> AllHold(s, root, s.nodes[p].providers[root])
  }

  ghost predicate PacketsGood(s: Sys) {
    forall i :: 0 <= i < |s.net| ==> GoodMessage(s, s.net[i].m)
  }

  ghost predicate UploadsGood(h: Hash, s: Sys) {
    UploadsPlaced(s) && forall upload :: upload in s.uploads ==> GoodUpload(h, s, s.uploads[upload])
  }

  ghost predicate FoundGood(s: Sys) {
    forall f :: f in s.found ==> Holds(s, f.0, f.1.id)
  }

  ghost predicate AskedUsed(s: Sys) {
    "" !in s.asked && forall req :: req in s.asked ==> req in s.used
  }

  ghost predicate Inv(h: Hash, s: Sys) {
    NodesGood(h, s) && RecordsGood(s) && PacketsGood(s) && UploadsGood(h, s) && FoundGood(s) && AskedUsed(s)
  }

  // ---------- growth: what steps never take away ----------

  ghost predicate NodeGrows(n: NodeState, m: NodeState) {
    && m.id == n.id && m.addr == n.addr && n.meta.Keys <= m.meta.Keys
    && (n.store.Some? ==> m.store.Some? && n.store.value.Keys <= m.store.value.Keys)
  }

  ghost predicate Grows(s: Sys, t: Sys) {
    && s.nodes.Keys == t.nodes.Keys
    && forall p :: p in s.nodes ==> NodeGrows(s.nodes[p], t.nodes[p])
  }

  lemma GrowsKeeps(s: Sys, t: Sys)
    requires Grows(s, t)
    ensures RealIds(s) == RealIds(t)
    ensures forall root, id :: Holds(s, root, id) ==> Holds(t, root, id)
  {
    forall root, id | Holds(s, root, id)
      ensures Holds(t, root, id)
    {
      var p :| p in s.nodes && s.nodes[p].id == id && root in s.nodes[p].meta;
      assert NodeGrows(s.nodes[p], t.nodes[p]);
    }
    assert forall p :: p in s.nodes ==> NodeGrows(s.nodes[p], t.nodes[p]);
    assert forall p :: p in s.nodes ==> s.nodes[p].id == t.nodes[p].id;
  }

  /** t knows every identifier that s knows, and new questions use new identifiers. */
  ghost predicate IdsGrow(s: Sys, t: Sys) {
    && s.used <= t.used && AskedUsed(t)
    && forall req :: req in t.asked ==> if req in s.asked then t.asked[req] == s.asked[req] else req !in s.used
  }

  lemma GrowsKeepsMessage(s: Sys, t: Sys, m: Message)
    requires Grows(s, t) && IdsGrow(s, t) && GoodMessage(s, m)
    ensures GoodMessage(t, m)
  {
    GrowsKeeps(s, t);
  }

  lemma GrowsKeepsUpload(h: Hash, s: Sys, t: Sys, upload: Upload)
    requires Grows(s, t) && upload.peer in s.nodes && s.nodes[upload.peer].store.Some? && GoodUpload(h, s, upload)
    ensures upload.peer in t.nodes && t.nodes[upload.peer].store.Some? && GoodUpload(h, t, upload)
  {
    assert NodeGrows(s.nodes[upload.peer], t.nodes[upload.peer]);
  }

  // ---------- one node ----------

  lemma LearnKeepsWithin(n: NodeState, id: Id, address: string, now: int, ids: set<Id>)
    requires WellFormed(n.id, n.table) && TableWithin(n.table, ids) && id in ids
    ensures WellFormed(n.id, Learn(n, id, address, now).table) && TableWithin(Learn(n, id, address, now).table, ids)
  {
    LearnKeepsWellFormed(n, id, address, now);
    if id != n.id {
      var i, c := BucketIndex(n.id, id), Contact(id, address, 0);
      var s, r := n.table[i], Refresh(n.table[i], c, now);
      RefreshShape(s, c, now);
      forall d | d in r
        ensures d.id in ids
      {
        var j :| 0 <= j < |r| && r[j] == d;
        if j > 0 {
          var k := if j <= Find(s, c.id) then j - 1 else j;
          assert s[k] in n.table[i];
        }
      }
    }
  }

  lemma {:induction false} LearnAllKeepsWithin(n: NodeState, nodes: seq<Contact>, clock: Clock, ids: set<Id>)
    requires WellFormed(n.id, n.table) && TableWithin(n.table, ids)
    requires forall i :: 0 <= i < |nodes| ==> nodes[i].id in ids
    ensures WellFormed(n.id, LearnAll(n, nodes, clock).table) && TableWithin(LearnAll(n, nodes, clock).table, ids)
    ensures LearnAll(n, nodes, clock) == n.(table := LearnAll(n, nodes, clock).table)
  {
    if nodes != [] {
      var last, front := nodes[|nodes| - 1], nodes[..|nodes| - 1];
      LearnAllKeepsWithin(n, front, clock, ids);
      LearnKeepsWithin(LearnAll(n, front, clock), last.id, last.address, clock(|nodes| - 1), ids);
    }
  }

  lemma MessageOnTable(h: Hash, n: NodeState, from: string, m: Message, clock: Clock, putFails: bool, ids: set<Id>)
    requires WellFormed(n.id, n.table) && TableWithin(n.table, ids)
    requires m.from in ids && forall i :: 0 <= i < |m.nodes| ==> m.nodes[i].id in ids
    ensures var t := NodeAfter(h, n, from, m, clock, putFails);
            WellFormed(n.id, t.table) && TableWithin(t.table, ids)
  {
    match m.typ
    case Nodes =>
      LearnAllKeepsWithin(n, m.nodes, clock, ids);
      LearnKeepsWithin(LearnAll(n, m.nodes, clock), m.from, SenderAddr(from, m), clock(|m.nodes|), ids);
    case Ping => LearnKeepsWithin(n, m.from, SenderAddr(from, m), clock(0), ids);
    case Pong => LearnKeepsWithin(n, m.from, SenderAddr(from, m), clock(0), ids);
    case FindNode => LearnKeepsWithin(n, m.from, SenderAddr(from, m), clock(0), ids);
    case _ =>
  }

  lemma MessageOnStore(h: Hash, n: NodeState, from: string, m: Message, clock: Clock, putFails: bool)
    ensures var t := NodeAfter(h, n, from, m, clock, putFails);
            && (n.store.Some? && GoodStore(h, n.store.value) ==>
                  t.store.Some? && GoodStore(h, t.store.value) && Extends(n.store.value, t.store.value))
            && (n.store.Some? ==> t.store.Some? && n.store.value.Keys <= t.store.value.Keys)
            && (n.store.None? ==> t.store.None?)
  {
    LearnAllTable(n, m.nodes, clock);
  }

  lemma MessageOnRest(h: Hash, n: NodeState, from: string, m: Message, clock: Clock, putFails: bool)
    ensures var t := NodeAfter(h, n, from, m, clock, putFails);
            && NodeGrows(n, t) && t.meta == n.meta
            && t.providers == if m.typ == StoreFileProvider && m.fileRoot != "" && m.from != n.id
                              then AddProvider(n.providers, m.fileRoot, Contact(m.from, SenderAddr(from, m), clock(0)))
                              else n.providers
  {
    MessageOnStore(h, n, from, m, clock, putFails);
    LearnAllTable(n, m.nodes, clock);
  }

  lemma BackedStays(h: Hash, n: NodeState, t: NodeState, root: string)
    requires Backed(h, n, root) && root in t.meta && t.meta[root] == n.meta[root]
    requires t.store.Some? && Extends(n.store.value, t.store.value)
    ensures Backed(h, t, root)
  {
  }

  /** A message changes the table within the real identifiers, adds to the store, and may add one provider record. */
  lemma MessageKeepsGoodNode(h: Hash, n: NodeState, from: string, m: Message, clock: Clock, putFails: bool, ids: set<Id>)
    requires GoodNode(h, n, ids) && m.from in ids && forall i :: 0 <= i < |m.nodes| ==> m.nodes[i].id in ids
    ensures GoodNode(h, NodeAfter(h, n, from, m, clock, putFails), ids)
  {
    var t := NodeAfter(h, n, from, m, clock, putFails);
    MessageOnTable(h, n, from, m, clock, putFails, ids);
    MessageOnStore(h, n, from, m, clock, putFails);
    MessageOnRest(h, n, from, m, clock, putFails);
    forall root | root in t.meta
      ensures Backed(h, t, root)
    {
      BackedStays(h, n, t, root);
    }
  }
}
