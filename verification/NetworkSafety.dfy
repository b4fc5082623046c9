/** What holds in every run of the network, and that deliveries come to rest. */
module NetworkSafety {
  import opened Ids
  import opened Routing
  import opened Chunks
  import Sequences
  import Files
  import opened Messages
  import opened Node
  import opened Network
  import opened NetworkSteps

  /** New nodes, nothing in flight. A store may already hold chunks, each under its own hash. */
  ghost predicate Initial(h: Hash, s: Sys) {
    && s.net == [] && s.uploads == map[] && s.used == {} && s.asked == map[] && s.found == {}
    && forall p :: p in s.nodes ==>
         && s.nodes[p].table == EmptyTable() && s.nodes[p].providers == map[] && s.nodes[p].meta == map[]
         && (s.nodes[p].store.Some? ==> GoodStore(h, s.nodes[p].store.value))
  }

  /** t is reached from s by these events, in this order. Uploads are placed in every reachable state. */
  ghost predicate Reaches(h: Hash, s: Sys, events: seq<Event>, t: Sys)
    decreases |events|
  {
    if events == [] then s == t
    else UploadsPlaced(s) && Enabled(h, s, events[0]) && Reaches(h, Step(h, s, events[0]), events[1..], t)
  }

  lemma InitialIsGood(h: Hash, s: Sys)
    requires Initial(h, s)
    ensures Inv(h, s)
  {
  }

  lemma {:induction false} RunKeepsInv(h: Hash, s: Sys, events: seq<Event>, t: Sys)
    requires Inv(h, s) && Reaches(h, s, events, t)
    ensures Inv(h, t)
    decreases |events|
  {
    if events != [] {
      StepKeepsInv(h, s, events[0]);
      RunKeepsInv(h, Step(h, s, events[0]), events[1..], t);
    }
  }

  // ---------- backed providers ----------

  /** Some node with this identifier has genuine metadata for the root and all its chunks. */
  ghost predicate BackedBy(h: Hash, s: Sys, root: string, id: Id) {
    exists q :: q in s.nodes && s.nodes[q].id == id && Backed(h, s.nodes[q], root)
  }

  lemma HoldsIsBacked(h: Hash, s: Sys, root: string, id: Id)
    requires NodesGood(h, s) && Holds(s, root, id)
    ensures BackedBy(h, s, root, id)
  {
    var q :| q in s.nodes && s.nodes[q].id == id && root in s.nodes[q].meta;
    assert GoodNode(h, s.nodes[q], RealIds(s));
  }

  /** In every run, every provider record anywhere names a node that can serve the file: records kept by
      nodes, records in flight, and records that clients were told for the root they asked about. */
  lemma ProvidersAreBacked(h: Hash, start: Sys, events: seq<Event>, s: Sys)
    requires Initial(h, start) && Reaches(h, start, events, s)
    ensures forall p, root, i :: p in s.nodes && root in s.nodes[p].providers && 0 <= i < |s.nodes[p].providers[root]| ==>
              BackedBy(h, s, root, s.nodes[p].providers[root][i].id)
    ensures forall k :: 0 <= k < |s.net| && s.net[k].m.typ == StoreFileProvider ==>
              BackedBy(h, s, s.net[k].m.fileRoot, s.net[k].m.from)
    ensures forall k, i :: 0 <= k < |s.net| && 0 <= i < |s.net[k].m.providers| ==>
              BackedBy(h, s, s.net[k].m.fileRoot, s.net[k].m.providers[i].id)
    ensures forall f :: f in s.found ==> BackedBy(h, s, f.0, f.1.id)
  {
    InitialIsGood(h, start);
    RunKeepsInv(h, start, events, s);
    forall root, id | Holds(s, root, id)
      ensures BackedBy(h, s, root, id)
    {
      HoldsIsBacked(h, s, root, id);
    }
    forall p, root, i | p in s.nodes && root in s.nodes[p].providers && 0 <= i < |s.nodes[p].providers[root]|
      ensures BackedBy(h, s, root, s.nodes[p].providers[root][i].id)
    {
      assert AllHold(s, root, s.nodes[p].providers[root]);
    }
    forall k | 0 <= k < |s.net|
      ensures GoodMessage(s, s.net[k].m)
    {
    }
  }

  /** In every run, routing tables stay well formed and only real nodes occur in tables and NODES messages. */
  lemma ContactsAreReal(h: Hash, start: Sys, events: seq<Event>, s: Sys)
    requires Initial(h, start) && Reaches(h, start, events, s)
    ensures forall p :: p in s.nodes ==> WellFormed(s.nodes[p].id, s.nodes[p].table) && TableWithin(s.nodes[p].table, RealIds(s))
    ensures forall k, i :: 0 <= k < |s.net| && 0 <= i < |s.net[k].m.nodes| ==> s.net[k].m.nodes[i].id in RealIds(s)
  {
    InitialIsGood(h, start);
    RunKeepsInv(h, start, events, s);
    forall p | p in s.nodes
      ensures GoodNode(h, s.nodes[p], RealIds(s))
    {
    }
    forall k | 0 <= k < |s.net|
      ensures GoodMessage(s, s.net[k].m)
    {
    }
  }

  // ---------- a backed provider can be downloaded from ----------

  /** What FetchFileMetaFromProvider makes of the message it receives. */
  function MetaOutcome(m: Message): (r: Result<Files.FileMeta>)
    ensures r.Ok? ==> m.error == "" && m.fileMeta == Some(r.value)
  {
    if m.error != "" then Err(m.error)
    else if m.fileMeta.None? then Err("missing FileMeta")
    else Ok(m.fileMeta.value)
  }

  /** What FetchChunkRemote makes of the message it receives. Empty data is omitted on the wire and arrives as nil. */
  function ChunkOutcome(m: Message): (r: Result<Bytes>)
    ensures r.Ok? ==> m.error == "" && m.chunkId != "" && r.value == m.chunkData != []
  {
    if m.error != "" then Err(m.error)
    else if m.chunkId == "" then Err("missing ChunkID")
    else if m.chunkData == [] then Err("missing ChunkData")
    else Ok(m.chunkData)
  }

  /** The node's answer to a request. */
  function AnswerOf(h: Hash, n: NodeState, m: Message): Message
    requires IsCorrelatedRequest(m.typ)
  {
    CorrelatedRequestsAreAnswered(h, n, m, false, []);
    ReplyTo(h, n, m, false, []).m
  }

  function AskMeta(from: Id, root: string): Message {
    Message(GetFileMeta, from, fileRoot := root)
  }

  function AskChunk(from: Id, id: ChunkId): Message {
    Message(GetChunk, from, chunkId := Name(id))
  }

  /** The answers to the chunk requests of a download; ns[i] is the provider when request i arrives. */
  function ChunkAnswers(h: Hash, ns: seq<NodeState>, from: Id, chunks: seq<Files.ChunkMeta>): (answers: seq<Result<Bytes>>)
    requires |ns| == |chunks|
    ensures |answers| == |chunks|
    ensures forall i :: 0 <= i < |chunks| ==> answers[i] == ChunkOutcome(AnswerOf(h, ns[i], AskChunk(from, chunks[i].id)))
  {
    seq(|chunks|, i requires 0 <= i < |chunks| => ChunkOutcome(AnswerOf(h, ns[i], AskChunk(from, chunks[i].id))))
  }

  lemma ChunkIsServed(h: Hash, n: NodeState, from: Id, id: ChunkId)
    requires n.store.Some? && id in n.store.value && n.store.value[id] != []
    ensures ChunkOutcome(AnswerOf(h, n, AskChunk(from, id))) == Ok(n.store.value[id])
  {
    NameParses(id);
  }

  /** The node has grown, and its store still has the same bytes. */
  ghost predicate StillServes(n: NodeState, later: NodeState) {
    NodeGrows(n, later) && (n.store.Some? ==> Extends(n.store.value, later.store.value))
  }

  lemma AllChunksAreServed(h: Hash, n: NodeState, ns: seq<NodeState>, from: Id, file: Files.FileMeta)
    requires n.store.Some? && Complete(h, n.store.value, file) && |ns| == |file.chunks|
    requires forall i :: 0 <= i < |ns| ==> StillServes(n, ns[i])
    ensures var answers := ChunkAnswers(h, ns, from, file.chunks); Files.Verified(h, file.chunks, answers, |answers|)
  {
    forall i | 0 <= i < |file.chunks|
      ensures ChunkOutcome(AnswerOf(h, ns[i], AskChunk(from, file.chunks[i].id))) == Ok(n.store.value[file.chunks[i].id])
    {
      assert StillServes(n, ns[i]);
      ChunkIsServed(h, ns[i], from, file.chunks[i].id);
    }
  }

  lemma MetaIsServed(h: Hash, n: NodeState, from: Id, root: string)
    requires root in n.meta && root != ""
    ensures MetaOutcome(AnswerOf(h, n, AskMeta(from, root))) == Ok(n.meta[root])
  {
  }

  /** The node answers the metadata request with the metadata of these bytes, and the chunk answers, given in these
      states, pass the download's checks; they join to these bytes or show a hash collision. */
  ghost predicate Serves(h: Hash, n: NodeState, ns: seq<NodeState>, from: Id, root: string, data: Bytes, size: nat) {
    && size > 0 && data != [] && Name(Files.MetaOf(h, data, size).root) == root
    && MetaOutcome(AnswerOf(h, n, AskMeta(from, root))) == Ok(Files.MetaOf(h, data, size))
    && var chunks := Files.MetaOf(h, data, size).chunks;
       && |ns| == |chunks|
       && var answers := ChunkAnswers(h, ns, from, chunks);
          && Files.Verified(h, chunks, answers, |answers|)
          && (Sequences.Flatten(Files.Values(answers)) == data
              || var (x, y) := Files.FirstDifference(Files.Blocks(data, size), Files.Values(answers)); Collision(h, x, y))
  }

  /** A node that backs a root serves the file, also when it has grown between the requests. */
  lemma BackedNodeServesFile(h: Hash, n: NodeState, ns: seq<NodeState>, from: Id, root: string) returns (data: Bytes, size: nat)
    requires Backed(h, n, root) && |ns| == |n.meta[root].chunks| && forall i :: 0 <= i < |ns| ==> StillServes(n, ns[i])
    ensures Serves(h, n, ns, from, root, data, size)
  {
    data, size :| size > 0 && data != [] && n.meta[root] == Files.MetaOf(h, data, size);
    MetaIsServed(h, n, from, root);
    AllChunksAreServed(h, n, ns, from, n.meta[root]);
    Files.DownloadRestores(h, data, size, ChunkAnswers(h, ns, from, Files.MetaOf(h, data, size).chunks));
  }

  // ---------- what runs never take away ----------

  ghost predicate Keeps(n: NodeState, later: NodeState) {
    StillServes(n, later) && forall root :: ProvidersOf(n.providers, root) <= ProvidersOf(later.providers, root)
  }

  lemma HandledKeeps(h: Hash, s: Sys, p: Packet, clock: Clock, putFails: bool)
    requires p.dst in s.nodes
    ensures Keeps(s.nodes[p.dst], HandledNode(h, s, p, clock, putFails))
  {
    HandleRemembers(h, s.nodes[p.dst], Arrival(p.seenFrom, p.m, clock, putFails));
  }

  lemma KeepsItself(n: NodeState)
    ensures Keeps(n, n)
  {
  }

  lemma PutKeeps(h: Hash, n: NodeState, block: Bytes)
    requires n.store.Some?
    ensures Keeps(n, n.(store := Some(Put(h, n.store.value, block))))
  {
  }

  lemma RecordKeeps(n: NodeState, root: string, c: Contact)
    ensures Keeps(n, n.(providers := AddProvider(n.providers, root, c)))
  {
    RecordsAccumulate(n.providers, root, c);
  }

  lemma UploadEventKeepsNode(h: Hash, s: Sys, e: Event, p: Peer)
    requires UploadsPlaced(s) && Enabled(h, s, e) && p in s.nodes
    requires e.PutBlock? || e.RegisterMeta? || e.AnnounceSelf?
    ensures p in Step(h, s, e).nodes && Keeps(s.nodes[p], Step(h, s, e).nodes[p])
  {
    KeepsItself(s.nodes[p]);
    var n := s.nodes[s.uploads[e.upload].peer];
    match e
    case PutBlock(upload, _) => PutKeeps(h, n, NextBlock(s, upload));
    case RegisterMeta(_) =>
    case AnnounceSelf(upload, now) => RecordKeeps(n, Name(s.uploads[upload].file.root), Contact(n.id, n.addr, now));
  }

  lemma StepKeepsNode(h: Hash, s: Sys, e: Event, p: Peer)
    requires UploadsPlaced(s) && Enabled(h, s, e) && p in s.nodes
    ensures p in Step(h, s, e).nodes && Keeps(s.nodes[p], Step(h, s, e).nodes[p])
  {
    if e.PutBlock? || e.RegisterMeta? || e.AnnounceSelf? {
      UploadEventKeepsNode(h, s, e, p);
    } else {
      KeepsItself(s.nodes[p]);
      if e.Deliver? {
        HandledKeeps(h, s, s.net[e.i], e.clock, e.putFails);
      }
    }
  }

  lemma {:induction false} RunKeepsNode(h: Hash, s: Sys, events: seq<Event>, t: Sys, p: Peer)
    requires Reaches(h, s, events, t) && p in s.nodes
    ensures p in t.nodes && Keeps(s.nodes[p], t.nodes[p])
    decreases |events|
  {
    if events != [] {
      StepKeepsNode(h, s, events[0], p);
      RunKeepsNode(h, Step(h, s, events[0]), events[1..], t, p);
    }
  }

  /** A state of this peer that some steps of the network lead to. */
  ghost predicate Later(h: Hash, s: Sys, q: Peer, n: NodeState) {
    exists events, t :: Reaches(h, s, events, t) && q in t.nodes && t.nodes[q] == n
  }

  /** A provider that is backed at some moment of a run serves the file ever after: the metadata request may arrive
      at any later moment, each chunk request at any moment after that, with any steps of the network in between. */
  lemma BackedProviderServesLater(h: Hash, start: Sys, events: seq<Event>, s: Sys, q: Peer, root: string,
                                  wait: seq<Event>, asked: Sys, ns: seq<NodeState>, from: Id)
    returns (data: Bytes, size: nat)
    requires Initial(h, start) && Reaches(h, start, events, s) && q in s.nodes && Backed(h, s.nodes[q], root)
    requires Reaches(h, s, wait, asked)
    requires q in asked.nodes && root in asked.nodes[q].meta ==> |ns| == |asked.nodes[q].meta[root].chunks|
    requires forall i :: 0 <= i < |ns| ==> Later(h, asked, q, ns[i])
    ensures q in asked.nodes && Serves(h, asked.nodes[q], ns, from, root, data, size)
  {
    InitialIsGood(h, start);
    RunKeepsInv(h, start, events, s);
    RunKeepsInv(h, s, wait, asked);
    RunKeepsNode(h, s, wait, asked, q);
    assert GoodNode(h, asked.nodes[q], RealIds(asked));
    forall i | 0 <= i < |ns|
      ensures StillServes(asked.nodes[q], ns[i])
    {
      LaterKeeps(h, asked, q, ns[i]);
    }
    data, size := BackedNodeServesFile(h, asked.nodes[q], ns, from, root);
  }

  lemma LaterKeeps(h: Hash, s: Sys, q: Peer, n: NodeState)
    requires q in s.nodes && Later(h, s, q, n)
    ensures Keeps(s.nodes[q], n)
  {
    var events, t :| Reaches(h, s, events, t) && q in t.nodes && t.nodes[q] == n;
    RunKeepsNode(h, s, events, t, q);
  }

  // ---------- quiescence ----------

  function Cost(p: Packet): nat {
    if IsAnswer(p.m.typ) then 1 else 2
  }

  function Weight(net: seq<Packet>): nat {
    if net == [] then 0 else Cost(net[0]) + Weight(net[1..])
  }

  lemma {:induction false} WeightBound(net: seq<Packet>)
    ensures |net| <= Weight(net) <= 2 * |net|
  {
    if net != [] {
      WeightBound(net[1..]);
    }
  }

  lemma {:induction false} WeightSplits(a: seq<Packet>, b: seq<Packet>)
    ensures Weight(a + b) == Weight(a) + Weight(b)
  {
    if a == [] {
      assert a + b == b;
    } else {
      WeightSplits(a[1..], b);
      assert (a + b)[1..] == a[1..] + b;
    }
  }

  lemma WeightCons(p: Packet, rest: seq<Packet>)
    ensures Weight([p] + rest) == Cost(p) + Weight(rest)
  {
    assert ([p] + rest)[1..] == rest;
  }

  lemma WeightDropPacket(net: seq<Packet>, i: nat)
    requires i < |net|
    ensures Weight(DropPacket(net, i)) == Weight(net) - Cost(net[i])
  {
    WeightSplits(net[..i], net[i + 1..]);
    WeightSplits(net[..i], [net[i]] + net[i + 1..]);
    WeightCons(net[i], net[i + 1..]);
    assert net == net[..i] + ([net[i]] + net[i + 1..]);
  }

  lemma HandlingCosts(h: Hash, s: Sys, i: nat, clock: Clock, putFails: bool, closest: seq<Contact>, seenFrom: string)
    requires i < |s.net| && s.net[i].dst in s.nodes
    ensures Weight(HandledNet(h, s, i, clock, putFails, closest, seenFrom)) < Weight(s.net)
  {
    var p := s.net[i];
    var r := ReplyTo(h, HandledNode(h, s, p, clock, putFails), p.m, putFails, closest);
    WeightDropPacket(s.net, i);
    AnswersEndExchanges(h, HandledNode(h, s, p, clock, putFails), p.m, putFails, closest);
    if r.Answer? {
      WeightSplits(DropPacket(s.net, i), [Packet(p.dst, p.src, seenFrom, r.m)]);
      WeightCons(Packet(p.dst, p.src, seenFrom, r.m), []);
      assert [Packet(p.dst, p.src, seenFrom, r.m)] + [] == [Packet(p.dst, p.src, seenFrom, r.m)];
    }
  }

  lemma DeliveryCosts(h: Hash, s: Sys, e: Event)
    requires UploadsPlaced(s) && Enabled(h, s, e) && (e.Deliver? || e.Lose?)
    ensures Weight(Step(h, s, e).net) < Weight(s.net)
  {
    WeightDropPacket(s.net, e.i);
    if e.Deliver? && !Intercepted(s.net[e.i].m, e.waiting) {
      HandlingCosts(h, s, e.i, e.clock, e.putFails, e.closest, e.seenFrom);
    }
  }

  lemma {:induction false} DeliveriesCost(h: Hash, s: Sys, events: seq<Event>, t: Sys)
    requires Reaches(h, s, events, t) && forall k :: 0 <= k < |events| ==> events[k].Deliver? || events[k].Lose?
    ensures |events| + Weight(t.net) <= Weight(s.net)
    decreases |events|
  {
    if events != [] {
      DeliveryCosts(h, s, events[0]);
      DeliveriesCost(h, Step(h, s, events[0]), events[1..], t);
    }
  }

  /** Without new sends every schedule of deliveries and losses ends: it has at most two steps for each message in
      flight, and one step less for each message still in flight at its end. */
  lemma DeliveriesComeToRest(h: Hash, s: Sys, events: seq<Event>, t: Sys)
    requires Reaches(h, s, events, t) && forall k :: 0 <= k < |events| ==> events[k].Deliver? || events[k].Lose?
    ensures |events| + |t.net| <= 2 * |s.net|
  {
    DeliveriesCost(h, s, events, t);
    WeightBound(s.net);
    WeightBound(t.net);
  }

  // ---------- the address of a provider record ----------

  /** Provider records in flight carry no address of their own. */
  ghost predicate RecordsBare(net: seq<Packet>) {
    forall k :: 0 <= k < |net| && net[k].m.typ == StoreFileProvider ==> net[k].m.nodeAddr == ""
  }

  lemma DropKeepsBare(net: seq<Packet>, i: nat)
    requires i < |net| && RecordsBare(net)
    ensures RecordsBare(DropPacket(net, i))
  {
  }

  lemma SendKeepsBare(net: seq<Packet>, p: Packet)
    requires RecordsBare(net) && (p.m.typ == StoreFileProvider ==> p.m.nodeAddr == "")
    ensures RecordsBare(net + [p])
  {
  }

  lemma HandledIsBare(h: Hash, s: Sys, i: nat, clock: Clock, putFails: bool, closest: seq<Contact>, seenFrom: string)
    requires i < |s.net| && s.net[i].dst in s.nodes && RecordsBare(s.net)
    ensures RecordsBare(HandledNet(h, s, i, clock, putFails, closest, seenFrom))
  {
    var p := s.net[i];
    var r := ReplyTo(h, HandledNode(h, s, p, clock, putFails), p.m, putFails, closest);
    DropKeepsBare(s.net, i);
    AnswersEndExchanges(h, HandledNode(h, s, p, clock, putFails), p.m, putFails, closest);
    if r.Answer? {
      SendKeepsBare(DropPacket(s.net, i), Packet(p.dst, p.src, seenFrom, r.m));
    }
  }

  lemma StepKeepsBare(h: Hash, s: Sys, e: Event)
    requires UploadsPlaced(s) && Enabled(h, s, e) && RecordsBare(s.net)
    ensures RecordsBare(Step(h, s, e).net)
  {
    match e
    case Deliver(i, waiting, clock, putFails, closest, seenFrom) =>
      DropKeepsBare(s.net, i);
      if !Intercepted(s.net[i].m, waiting) {
        HandledIsBare(h, s, i, clock, putFails, closest, seenFrom);
      }
    case Lose(i) => DropKeepsBare(s.net, i);
    case _ =>
  }

  /** In every run a provider is recorded by others under the connection address from which its record was received:
      no record carries the advertised listening address. */
  lemma {:induction false} RecordsCarryNoAddress(h: Hash, s: Sys, events: seq<Event>, t: Sys)
    requires RecordsBare(s.net) && Reaches(h, s, events, t)
    ensures RecordsBare(t.net)
    ensures forall k :: 0 <= k < |t.net| && t.net[k].m.typ == StoreFileProvider ==>
              SenderAddr(t.net[k].seenFrom, t.net[k].m) == t.net[k].seenFrom
    decreases |events|
  {
    if events != [] {
      StepKeepsBare(h, s, events[0]);
      RecordsCarryNoAddress(h, Step(h, s, events[0]), events[1..], t);
    }
  }
}
