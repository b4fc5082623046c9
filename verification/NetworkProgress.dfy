/** What the network can do: from every reachable state a file can be stored and announced, and the record can
    travel to a peer and its answer to a client, whatever else is in flight. */
module NetworkProgress {
  import opened Ids
  import opened Routing
  import opened Chunks
  import Files
  import opened Messages
  import opened Node
  import opened Network
  import opened NetworkSteps
  import opened NetworkSafety

  // ---------- single steps ----------

  lemma OneStep(h: Hash, s: Sys, e: Event)
    requires Inv(h, s) && Enabled(h, s, e)
    ensures Reaches(h, s, [e], Step(h, s, e)) && Inv(h, Step(h, s, e))
  {
    assert Reaches(h, Step(h, s, e), [e][1..], Step(h, s, e));
    StepKeepsInv(h, s, e);
  }

  lemma StepsTo(h: Hash, s: Sys, e: Event, t: Sys)
    requires Inv(h, s) && Enabled(h, s, e) && t == Step(h, s, e)
    ensures Reaches(h, s, [e], t) && Inv(h, t)
  {
    OneStep(h, s, e);
  }

  lemma DropLast(net: seq<Packet>, p: Packet)
    ensures DropPacket(net + [p], |net|) == net
  {
  }

  lemma {:induction false} ReachesFurther(h: Hash, s: Sys, a: seq<Event>, t: Sys, b: seq<Event>, u: Sys)
    requires Reaches(h, s, a, t) && Reaches(h, t, b, u)
    ensures Reaches(h, s, a + b, u)
    decreases |a|
  {
    if a == [] {
      assert a + b == b;
    } else {
      ReachesFurther(h, Step(h, s, a[0]), a[1..], t, b, u);
      assert (a + b)[1..] == a[1..] + b;
    }
  }

  /** An answer without error to a peer's own provider question tells the peer every provider it lists. */
  lemma AnswerTellsAll(h: Hash, s: Sys, i: nat, clock: Clock, closest: seq<Contact>, seenFrom: string, c: Contact)
    requires UploadsPlaced(s) && Enabled(h, s, Deliver(i, true, clock, false, closest, seenFrom))
    requires var m := s.net[i].m;
             && IsResponseType(m.typ) && m.requestId != "" && m.error == "" && c in m.providers
             && m.requestId in s.asked && s.asked[m.requestId].peer == s.net[i].dst
    ensures (s.asked[s.net[i].m.requestId].root, c) in Step(h, s, Deliver(i, true, clock, false, closest, seenFrom)).found
  {
  }

  /** A request that the node handles is answered to the peer it came from. */
  lemma RequestIsAnswered(h: Hash, s: Sys, i: nat, clock: Clock, putFails: bool, closest: seq<Contact>, seenFrom: string)
    requires UploadsPlaced(s) && Enabled(h, s, Deliver(i, false, clock, putFails, closest, seenFrom))
    requires IsCorrelatedRequest(s.net[i].m.typ)
    ensures var p, t := s.net[i], Step(h, s, Deliver(i, false, clock, putFails, closest, seenFrom));
            && |t.net| == |s.net|
            && var q := t.net[|t.net| - 1];
               && q.src == p.dst && q.dst == p.src && q.seenFrom == seenFrom
               && q.m.typ == AnswerType(p.m.typ) && q.m.requestId == p.m.requestId && q.m.from == s.nodes[p.dst].id
  {
    MessageOnRest(h, s.nodes[s.net[i].dst], s.net[i].seenFrom, s.net[i].m, clock, putFails);
    CorrelatedRequestsAreAnswered(h, HandledNode(h, s, s.net[i], clock, putFails), s.net[i].m, putFails, closest);
  }

  // ---------- storing and announcing ----------

  /** Everything but nodes and uploads is as before. */
  ghost predicate SameTraffic(s: Sys, t: Sys) {
    t.net == s.net && t.used == s.used && t.asked == s.asked && t.found == s.found
  }

  lemma {:induction false} BlocksCanBePut(h: Hash, s: Sys, upload: nat) returns (events: seq<Event>, t: Sys)
    requires Inv(h, s) && upload in s.uploads && s.uploads[upload].Storing? && s.uploads[upload].size > 0
    ensures Reaches(h, s, events, t) && Inv(h, t) && SameTraffic(s, t)
    ensures upload in t.uploads && t.uploads[upload] == s.uploads[upload].(done := |Blocks(s.uploads[upload])|)
    decreases |Blocks(s.uploads[upload])| - s.uploads[upload].done
  {
    assert GoodUpload(h, s, s.uploads[upload]);
    if HasBlock(s, upload) {
      var next := Step(h, s, PutBlock(upload, false));
      OneStep(h, s, PutBlock(upload, false));
      var more;
      more, t := BlocksCanBePut(h, next, upload);
      events := [PutBlock(upload, false)] + more;
      ReachesFurther(h, s, [PutBlock(upload, false)], next, more, t);
    } else {
      events, t := [], s;
    }
  }

  /** In every good state a peer with a store can store a file and make its own provider record. */
  lemma FileCanBeStored(h: Hash, s: Sys, upload: nat, peer: Peer, data: Bytes, size: nat, now: int)
    returns (events: seq<Event>, t: Sys)
    requires Inv(h, s) && Enabled(h, s, StartStore(upload, peer, data, size)) && data != []
    ensures Reaches(h, s, events, t) && Inv(h, t) && SameTraffic(s, t)
    ensures var root := Files.MetaOf(h, data, size).root;
            && upload in t.uploads && t.uploads[upload] == Announcing(peer, root)
            && peer in t.nodes && Backed(h, t.nodes[peer], Name(root))
            && t.nodes[peer].meta[Name(root)] == Files.MetaOf(h, data, size)
            && Names(ProvidersOf(t.nodes[peer].providers, Name(root)), t.nodes[peer].id, t.nodes[peer].addr)
  {
    var start := Step(h, s, StartStore(upload, peer, data, size));
    OneStep(h, s, StartStore(upload, peer, data, size));
    var puts, stored := BlocksCanBePut(h, start, upload);
    ReachesFurther(h, s, [StartStore(upload, peer, data, size)], start, puts, stored);
    var registered := Step(h, stored, RegisterMeta(upload));
    OneStep(h, stored, RegisterMeta(upload));
    ReachesFurther(h, s, [StartStore(upload, peer, data, size)] + puts, stored, [RegisterMeta(upload)], registered);
    t := Step(h, registered, AnnounceSelf(upload, now));
    OneStep(h, registered, AnnounceSelf(upload, now));
    events := ([StartStore(upload, peer, data, size)] + puts + [RegisterMeta(upload)]) + [AnnounceSelf(upload, now)];
    ReachesFurther(h, s, [StartStore(upload, peer, data, size)] + puts + [RegisterMeta(upload)], registered,
                   [AnnounceSelf(upload, now)], t);
    var n := registered.nodes[peer];
    RecordsAccumulate(n.providers, Name(Files.MetaOf(h, data, size).root), Contact(n.id, n.addr, now));
    assert GoodNode(h, t.nodes[peer], RealIds(t));
  }

  // ---------- requests ----------

  function WithPacket(s: Sys, p: Packet, used: set<string>): Sys {
    s.(net := s.net + [p], used := used)
  }

  /** A request that arrived last is answered from the receiver's state. */
  lemma DeliverRequest(h: Hash, s: Sys, p: Packet, used: set<string>, clock: Clock)
    requires IsCorrelatedRequest(p.m.typ) && p.m.typ != StoreChunk && p.dst in s.nodes
    requires UploadsPlaced(WithPacket(s, p, used))
    ensures var sent, e := WithPacket(s, p, used), Deliver(|s.net|, false, clock, false, [], "");
            && Enabled(h, sent, e)
            && Step(h, sent, e) == WithPacket(s, Packet(p.dst, p.src, "", AnswerOf(h, s.nodes[p.dst], p.m)), used)
  {
    DropLast(s.net, p);
    assert s.nodes[p.dst := s.nodes[p.dst]] == s.nodes;
  }

  /** A client's question for metadata or a chunk can reach its provider, and the provider's answer comes back. */
  lemma RequestCanBeAnswered(h: Hash, s: Sys, client: Peer, dst: Peer, seenFrom: string, m: Message, clock: Clock)
    returns (events: seq<Event>, t: Sys)
    requires Inv(h, s) && dst in s.nodes && (m.typ == GetChunk || m.typ == GetFileMeta)
    requires Enabled(h, s, ClientSend(client, dst, seenFrom, m))
    ensures Reaches(h, s, events, t) && Inv(h, t)
    ensures t.net == s.net + [Packet(dst, client, "", AnswerOf(h, s.nodes[dst], m))]
  {
    var p, used := Packet(client, dst, seenFrom, m), s.used + {m.requestId};
    var send, handle := ClientSend(client, dst, seenFrom, m), Deliver(|s.net|, false, clock, false, [], "");
    var sent := WithPacket(s, p, used);
    StepsTo(h, s, send, sent);
    DeliverRequest(h, s, p, used, clock);
    t := WithPacket(s, Packet(dst, client, "", AnswerOf(h, s.nodes[dst], m)), used);
    StepsTo(h, sent, handle, t);
    events := [send] + [handle];
    ReachesFurther(h, s, [send], sent, [handle], t);
  }

  // ---------- from the record to the client ----------

  function RecordPacket(s: Sys, upload: nat, dst: Peer, seenFrom: string): Packet
    requires upload in s.uploads && s.uploads[upload].Announcing? && s.uploads[upload].peer in s.nodes
  {
    var u := s.uploads[upload];
    Packet(u.peer, dst, seenFrom, Message(StoreFileProvider, s.nodes[u.peer].id, fileRoot := Name(u.root)))
  }

  /** s after the last packet, a provider record, was handled by its receiver. */
  function Recorded(h: Hash, s: Sys, p: Packet, clock: Clock): Sys
    requires p.dst in s.nodes
  {
    s.(nodes := s.nodes[p.dst := HandledNode(h, s, p, clock, false)])
  }

  lemma DeliverRecord(h: Hash, s: Sys, p: Packet, clock: Clock)
    requires p.dst in s.nodes && p.m.typ == StoreFileProvider && UploadsPlaced(s.(net := s.net + [p]))
    ensures var sent, e := s.(net := s.net + [p]), Deliver(|s.net|, false, clock, false, [], "");
            Enabled(h, sent, e) && Step(h, sent, e) == Recorded(h, s, p, clock)
  {
    DropLast(s.net, p);
  }

  lemma RecordIsNamed(h: Hash, s: Sys, p: Packet, clock: Clock)
    requires p.dst in s.nodes && p.m.typ == StoreFileProvider && p.m.fileRoot != "" && p.m.nodeAddr == ""
    requires p.m.from != s.nodes[p.dst].id
    ensures Names(ProvidersOf(Recorded(h, s, p, clock).nodes[p.dst].providers, p.m.fileRoot), p.m.from, p.seenFrom)
  {
    HandleNames(h, s.nodes[p.dst], Arrival(p.seenFrom, p.m, clock, false), p.m.fileRoot, p.m.from, p.seenFrom);
  }

  /** An announcing peer can send its record to any other node, which then names it under the address it saw. */
  lemma RecordCanArrive(h: Hash, s: Sys, upload: nat, dst: Peer, seenFrom: string, clock: Clock)
    returns (events: seq<Event>, t: Sys)
    requires Inv(h, s) && upload in s.uploads && s.uploads[upload].Announcing? && s.uploads[upload].peer in s.nodes
    requires dst in s.nodes && s.nodes[dst].id != s.nodes[s.uploads[upload].peer].id
    ensures Reaches(h, s, events, t) && Inv(h, t) && SameTraffic(s, t) && dst in t.nodes
    ensures Names(ProvidersOf(t.nodes[dst].providers, Name(s.uploads[upload].root)), s.nodes[s.uploads[upload].peer].id, seenFrom)
  {
    var p := RecordPacket(s, upload, dst, seenFrom);
    var sent := s.(net := s.net + [p]);
    var send, deliver := SendRecord(upload, dst, seenFrom), Deliver(|s.net|, false, clock, false, [], "");
    StepsTo(h, s, send, sent);
    t := Recorded(h, s, p, clock);
    DeliverRecord(h, s, p, clock);
    StepsTo(h, sent, deliver, t);
    events := [send] + [deliver];
    ReachesFurther(h, s, [send], sent, [deliver], t);
    RecordIsNamed(h, s, p, clock);
  }

  /** s with one more provider question asked. */
  function Asked(s: Sys, client: Peer, req: string, root: ChunkId, p: Packet): Sys {
    s.(net := s.net + [p], used := s.used + {req}, asked := s.asked[req := Question(client, Name(root))])
  }

  function QuestionPacket(s: Sys, client: Peer, dst: Peer, seenFrom: string, req: string, root: ChunkId): Packet
    requires client in s.nodes
  {
    Packet(client, dst, seenFrom, Message(GetFileProviders, s.nodes[client].id, requestId := req, fileRoot := Name(root)))
  }

  function AnswerPacket(s: Sys, client: Peer, dst: Peer, req: string, root: ChunkId): Packet
    requires dst in s.nodes
  {
    var n := s.nodes[dst];
    Packet(dst, client, "", Message(FileProviders, n.id, nodeAddr := n.addr, requestId := req, fileRoot := Name(root),
                                    providers := ProvidersOf(n.providers, Name(root))))
  }

  /** The node answers the question that arrived last. */
  lemma DeliverQuestion(h: Hash, s: Sys, client: Peer, dst: Peer, seenFrom: string, req: string, root: ChunkId, clock: Clock)
    requires client in s.nodes && dst in s.nodes
    requires UploadsPlaced(Asked(s, client, req, root, QuestionPacket(s, client, dst, seenFrom, req, root)))
    ensures var asked := Asked(s, client, req, root, QuestionPacket(s, client, dst, seenFrom, req, root));
            var e := Deliver(|s.net|, false, clock, false, [], "");
            && Enabled(h, asked, e)
            && Step(h, asked, e) == Asked(s, client, req, root, AnswerPacket(s, client, dst, req, root))
  {
    DropLast(s.net, QuestionPacket(s, client, dst, seenFrom, req, root));
    assert s.nodes[dst := s.nodes[dst]] == s.nodes;
  }

  /** The waiting client takes the answer that arrived last. */
  lemma ReceiveAnswer(h: Hash, s: Sys, client: Peer, dst: Peer, req: string, root: ChunkId, clock: Clock)
    requires client in s.nodes && dst in s.nodes && req != ""
    requires UploadsPlaced(Asked(s, client, req, root, AnswerPacket(s, client, dst, req, root)))
    ensures var answered := Asked(s, client, req, root, AnswerPacket(s, client, dst, req, root));
            var e := Deliver(|s.net|, true, clock, false, [], "");
            && Enabled(h, answered, e) && Step(h, answered, e).net == s.net
            && forall c :: c in ProvidersOf(s.nodes[dst].providers, Name(root)) ==> (Name(root), c) in Step(h, answered, e).found
  {
    DropLast(s.net, AnswerPacket(s, client, dst, req, root));
  }

  /** A client can ask any node for the providers of a root and is then told every provider that the node records. */
  lemma ProvidersCanBeAsked(h: Hash, s: Sys, client: Peer, dst: Peer, seenFrom: string, req: string, root: ChunkId, clock: Clock)
    returns (events: seq<Event>, t: Sys)
    requires Inv(h, s) && client in s.nodes && dst in s.nodes && req != "" && req !in s.used
    ensures Reaches(h, s, events, t) && Inv(h, t) && t.net == s.net
    ensures forall c :: c in ProvidersOf(s.nodes[dst].providers, Name(root)) ==> (Name(root), c) in t.found
  {
    var ask := AskProviders(client, dst, seenFrom, req, root);
    var handle, receive := Deliver(|s.net|, false, clock, false, [], ""), Deliver(|s.net|, true, clock, false, [], "");
    var asked := Asked(s, client, req, root, QuestionPacket(s, client, dst, seenFrom, req, root));
    var answered := Asked(s, client, req, root, AnswerPacket(s, client, dst, req, root));
    StepsTo(h, s, ask, asked);
    DeliverQuestion(h, s, client, dst, seenFrom, req, root, clock);
    StepsTo(h, asked, handle, answered);
    ReceiveAnswer(h, s, client, dst, req, root, clock);
    t := Step(h, answered, receive);
    StepsTo(h, answered, receive, t);
    events := ([ask] + [handle]) + [receive];
    ReachesFurther(h, s, [ask], asked, [handle], answered);
    ReachesFurther(h, s, [ask] + [handle], answered, [receive], t);
  }

  lemma KeepsIdentity(h: Hash, s: Sys, events: seq<Event>, t: Sys, p: Peer)
    requires Reaches(h, s, events, t) && p in s.nodes
    ensures p in t.nodes && t.nodes[p].id == s.nodes[p].id
  {
    RunKeepsNode(h, s, events, t, p);
  }

  lemma BackedStaysBacked(h: Hash, s: Sys, events: seq<Event>, t: Sys, p: Peer, root: string)
    requires Inv(h, t) && Reaches(h, s, events, t) && p in s.nodes && Backed(h, s.nodes[p], root)
    ensures p in t.nodes && Backed(h, t.nodes[p], root)
  {
    RunKeepsNode(h, s, events, t, p);
    assert GoodNode(h, t.nodes[p], RealIds(t));
  }

  /** An announcing peer can send its record to a node, and a client that asks this node is told the peer. */
  lemma AnnouncedCanBeFound(h: Hash, s: Sys, upload: nat, dst: Peer, client: Peer, seenFrom: string, req: string, clock: Clock)
    returns (events: seq<Event>, t: Sys, c: Contact)
    requires Inv(h, s) && upload in s.uploads && s.uploads[upload].Announcing? && s.uploads[upload].peer in s.nodes
    requires dst in s.nodes && s.nodes[dst].id != s.nodes[s.uploads[upload].peer].id
    requires client in s.nodes && req != "" && req !in s.used
    ensures Reaches(h, s, events, t) && Inv(h, t)
    ensures c.id == s.nodes[s.uploads[upload].peer].id && c.address == seenFrom
    ensures (Name(s.uploads[upload].root), c) in t.found
  {
    var root := s.uploads[upload].root;
    var announce, announced := RecordCanArrive(h, s, upload, dst, seenFrom, clock);
    KeepsIdentity(h, s, announce, announced, client);
    var list := ProvidersOf(announced.nodes[dst].providers, Name(root));
    var k :| 0 <= k < |list| && list[k].id == s.nodes[s.uploads[upload].peer].id && list[k].address == seenFrom;
    c := list[k];
    var ask, told := ProvidersCanBeAsked(h, announced, client, dst, seenFrom, req, root, clock);
    assert c in list;
    t := told;
    ReachesFurther(h, s, announce, announced, ask, told);
    events := announce + ask;
  }

  /** The whole way: from every reachable state, with anything else in flight, a peer can store a file and announce it to a
      node, and a client that asks this node is told the peer, which backs the root. */
  lemma StoredFileCanBeFound(h: Hash, start: Sys, past: seq<Event>, s: Sys, upload: nat, peer: Peer, data: Bytes, size: nat, now: int,
                             dst: Peer, client: Peer, seenFrom: string, req: string, clock: Clock)
    returns (events: seq<Event>, t: Sys, c: Contact)
    requires Initial(h, start) && Reaches(h, start, past, s)
    requires Enabled(h, s, StartStore(upload, peer, data, size)) && data != []
    requires dst in s.nodes && client in s.nodes && s.nodes[dst].id != s.nodes[peer].id && req != "" && req !in s.used
    ensures Reaches(h, s, events, t)
    ensures c.id == s.nodes[peer].id && c.address == seenFrom
    ensures var root := Name(Files.MetaOf(h, data, size).root);
            (root, c) in t.found && peer in t.nodes && t.nodes[peer].id == c.id && Backed(h, t.nodes[peer], root)
  {
    InitialIsGood(h, start);
    RunKeepsInv(h, start, past, s);
    var root := Name(Files.MetaOf(h, data, size).root);
    var store, stored := FileCanBeStored(h, s, upload, peer, data, size, now);
    KeepsIdentity(h, s, store, stored, peer);
    KeepsIdentity(h, s, store, stored, dst);
    KeepsIdentity(h, s, store, stored, client);
    var find;
    find, t, c := AnnouncedCanBeFound(h, stored, upload, dst, client, seenFrom, req, clock);
    KeepsIdentity(h, stored, find, t, peer);
    BackedStaysBacked(h, stored, find, t, peer, root);
    ReachesFurther(h, s, store, stored, find, t);
    events := store + find;
  }
}
