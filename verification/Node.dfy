/** HandleRPC: what one node does with one received message. */
module Node {
  import opened Ids
  import opened Routing
  import opened Chunks
  import opened Files
  import opened Messages

  /** A node as a value. store is None when no chunk store is configured. */
  datatype NodeState = NodeState(
    id: Id,
    addr: string,
    table: Table,
    store: Option<Store>,
    providers: map<string, seq<Contact>>,
    meta: map<string, FileMeta>)

  datatype Reply = Nothing | Failure | Answer(m: Message)

  /** Clock readings of one call, in the order in which they are taken. */
  type Clock = nat -> int

  // ---------- provider and metadata records ----------

  function ProvidersOf(providers: map<string, seq<Contact>>, root: string): seq<Contact> {
    if root in providers then providers[root] else []
  }

  predicate Known(list: seq<Contact>, c: Contact) {
    exists i :: 0 <= i < |list| && list[i].id == c.id && list[i].address == c.address
  }

  function AddProvider(providers: map<string, seq<Contact>>, root: string, c: Contact): map<string, seq<Contact>> {
    var list := ProvidersOf(providers, root);
    if Known(list, c) then providers else providers[root := list + [c]]
  }

  function AddMeta(meta: map<string, FileMeta>, file: FileMeta): map<string, FileMeta> {
    meta[Name(file.root) := file]
  }

  // ---------- the new state ----------

  function SenderAddr(from: string, m: Message): string {
    if m.nodeAddr != "" then m.nodeAddr else from
  }

  function Learn(n: NodeState, id: Id, address: string, now: int): NodeState {
    n.(table := AddToTable(n.id, n.table, Contact(id, address, 0), now))
  }

  /** The contacts of a NODES message, in message order; their LastSeen fields are ignored. */
  function LearnAll(n: NodeState, nodes: seq<Contact>, clock: Clock): NodeState {
    if nodes == [] then n
    else
      var last := nodes[|nodes| - 1];
      Learn(LearnAll(n, nodes[..|nodes| - 1], clock), last.id, last.address, clock(|nodes| - 1))
  }

  function NodeAfter(h: Hash, n: NodeState, from: string, m: Message, clock: Clock, putFails: bool): NodeState {
    match m.typ
    case Ping => Learn(n, m.from, SenderAddr(from, m), clock(0))
    case Pong => Learn(n, m.from, SenderAddr(from, m), clock(0))
    case FindNode => if m.target.None? then n else Learn(n, m.from, SenderAddr(from, m), clock(0))
    case Nodes => Learn(LearnAll(n, m.nodes, clock), m.from, SenderAddr(from, m), clock(|m.nodes|))
    case StoreChunk =>
      if n.store.None? || m.chunkData == [] || (putFails && h(m.chunkData) !in n.store.value) then n
      else n.(store := Some(Put(h, n.store.value, m.chunkData)))
    case StoreFileProvider =>
      if m.fileRoot == "" || m.from == n.id then n
      else n.(providers := AddProvider(n.providers, m.fileRoot, Contact(m.from, SenderAddr(from, m), clock(0))))
    case _ => n
  }

  // ---------- the reply ----------

  /** The reply, given the node after the message and the contacts that FindClosest returned. */
  function ReplyTo(h: Hash, n: NodeState, m: Message, putFails: bool, closest: seq<Contact>): Reply {
    match m.typ
    case Ping => Answer(Message(Pong, n.id, nodeAddr := n.addr))
    case FindNode =>
      if m.target.None? then Failure else Answer(Message(Nodes, n.id, nodeAddr := n.addr, nodes := closest))
    case StoreChunk =>
      var r := Message(StoreChunkResult, n.id, nodeAddr := n.addr, requestId := m.requestId);
      if n.store.None? then Answer(r.(error := "no local chunk store configured"))
      else if m.chunkData == [] then Answer(r.(error := "empty chunk data"))
      else if putFails && h(m.chunkData) !in n.store.value then Answer(r.(error := "store error"))
      else Answer(r.(chunkId := Name(h(m.chunkData))))
    case GetChunk =>
      var r := Message(ChunkData, n.id, nodeAddr := n.addr, requestId := m.requestId, chunkId := m.chunkId);
      if n.store.None? then Answer(r.(error := "no local chunk store configured"))
      else if m.chunkId == "" then Answer(r.(error := "missing chunk_id"))
      else
        (match ParseChunkId(m.chunkId)
         case None => Answer(r.(error := "invalid chunk_id"))
         case Some(id) =>
           if id in n.store.value then Answer(r.(chunkData := n.store.value[id]))
           else Answer(r.(error := "chunk not found")))
    case GetFileProviders =>
      var r := Message(FileProviders, n.id, nodeAddr := n.addr, requestId := m.requestId);
      if m.fileRoot == "" then Answer(r.(error := "missing file_root"))
      else Answer(r.(fileRoot := m.fileRoot, providers := ProvidersOf(n.providers, m.fileRoot)))
    case GetFileMeta =>
      var r := Message(FileMetaReply, n.id, nodeAddr := n.addr, requestId := m.requestId);
      if m.fileRoot == "" then Answer(r.(error := "missing file_root"))
      else if m.fileRoot !in n.meta then Answer(r.(fileRoot := m.fileRoot, error := "file meta not found"))
      else Answer(r.(fileRoot := m.fileRoot, fileMeta := Some(n.meta[m.fileRoot])))
    case _ => Nothing
  }

  /** closest is what FindClosest returns to a FIND_NODE request on this node. */
  ghost predicate ClosestTo(n: NodeState, m: Message, closest: seq<Contact>) {
    m.typ == FindNode && m.target.Some? ==>
      IsClosest(m.target.value, AllContacts(n.table), K, closest)
  }

  // ---------- what every message keeps and what every answer promises ----------

  lemma LearnKeepsWellFormed(n: NodeState, id: Id, address: string, now: int)
    requires WellFormed(n.id, n.table)
    ensures WellFormed(n.id, Learn(n, id, address, now).table)
  {
    AddKeepsWellFormed(n.id, n.table, Contact(id, address, 0), now);
  }

  lemma {:induction false} LearnAllKeepsWellFormed(n: NodeState, nodes: seq<Contact>, clock: Clock)
    requires WellFormed(n.id, n.table)
    ensures WellFormed(n.id, LearnAll(n, nodes, clock).table)
    ensures LearnAll(n, nodes, clock) == n.(table := LearnAll(n, nodes, clock).table)
  {
    if nodes != [] {
      var last := nodes[|nodes| - 1];
      LearnAllKeepsWellFormed(n, nodes[..|nodes| - 1], clock);
      LearnKeepsWellFormed(LearnAll(n, nodes[..|nodes| - 1], clock), last.id, last.address, clock(|nodes| - 1));
    }
  }

  /** No message can break the routing table. */
  lemma MessageKeepsWellFormed(h: Hash, n: NodeState, from: string, m: Message, clock: Clock, putFails: bool)
    requires WellFormed(n.id, n.table)
    ensures WellFormed(n.id, NodeAfter(h, n, from, m, clock, putFails).table)
  {
    if m.typ == Nodes {
      LearnAllKeepsWellFormed(n, m.nodes, clock);
      LearnKeepsWellFormed(LearnAll(n, m.nodes, clock), m.from, SenderAddr(from, m), clock(|m.nodes|));
    } else if m.typ == Ping || m.typ == Pong || m.typ == FindNode {
      LearnKeepsWellFormed(n, m.from, SenderAddr(from, m), clock(0));
    }
  }

  /** Each of the four correlated requests gets one answer, of its own answer type, echoing its identifier. */
  lemma CorrelatedRequestsAreAnswered(h: Hash, n: NodeState, m: Message, putFails: bool, closest: seq<Contact>)
    requires IsCorrelatedRequest(m.typ)
    ensures var r := ReplyTo(h, n, m, putFails, closest);
            && r.Answer? && r.m.typ == AnswerType(m.typ) && r.m.requestId == m.requestId
            && r.m.from == n.id && r.m.nodeAddr == n.addr
            && (m.typ == StoreChunk ==> r.m.typ == StoreChunkResult) && (m.typ == GetChunk ==> r.m.typ == ChunkData)
            && (m.typ == GetFileProviders ==> r.m.typ == FileProviders) && (m.typ == GetFileMeta ==> r.m.typ == FileMetaReply)
  {
  }

  /** A PING is answered by a PONG that gives this node's identifier and listening address, and by nothing else. */
  lemma PingIsAnswered(h: Hash, n: NodeState, m: Message, putFails: bool, closest: seq<Contact>)
    ensures var r := ReplyTo(h, n, m, putFails, closest);
            && (m.typ == Ping ==> r.Answer? && r.m.typ == Pong && r.m.from == n.id && r.m.nodeAddr == n.addr && r.m.error == "")
            && (r.Answer? && r.m.typ == Pong ==> m.typ == Ping)
  {
  }

  /** Messages that are answers themselves. */
  predicate IsAnswer(t: MsgType) {
    t == Pong || t == Nodes || IsResponseType(t)
  }

  /** Answers are never answered, and every reply is an answer. */
  lemma AnswersEndExchanges(h: Hash, n: NodeState, m: Message, putFails: bool, closest: seq<Contact>)
    ensures var r := ReplyTo(h, n, m, putFails, closest);
            && (IsAnswer(m.typ) ==> r == Nothing)
            && (r.Answer? ==> IsAnswer(r.m.typ) && r.m.from == n.id && r.m.nodeAddr == n.addr)
  {
  }

  /** A FIND_NODE answer lists exactly the K contacts of the table closest to the target, never the node itself;
      without a target there is no answer. */
  lemma FindNodeIsAnswered(h: Hash, n: NodeState, m: Message, putFails: bool, closest: seq<Contact>)
    requires m.typ == FindNode && WellFormed(n.id, n.table) && ClosestTo(n, m, closest)
    ensures var r := ReplyTo(h, n, m, putFails, closest);
            match m.target
            case None => r == Failure
            case Some(target) =>
              && r.Answer? && r.m.typ == Nodes && r.m.from == n.id && r.m.nodeAddr == n.addr
              && IsClosest(target, AllContacts(n.table), K, r.m.nodes)
              && forall c :: c in r.m.nodes ==> c.id != n.id
  {
    FlattenDistinct(n.id, n.table, ID_BITS);
  }

  // ---------- what one message stores, a later one reports ----------

  /** Recording the same provider twice is recording it once, and no record is ever dropped or doubled. */
  lemma RecordsAccumulate(providers: map<string, seq<Contact>>, root: string, c: Contact)
    ensures var once := AddProvider(providers, root, c);
            && AddProvider(once, root, c) == once
            && (!Known(ProvidersOf(providers, root), c) ==> ProvidersOf(once, root) == ProvidersOf(providers, root) + [c])
            && Known(ProvidersOf(once, root), c)
            && (forall r :: ProvidersOf(providers, r) <= ProvidersOf(once, r))
            && (forall r :: r != root ==> ProvidersOf(once, r) == ProvidersOf(providers, r))
            && (|ProvidersOf(once, root)| > |ProvidersOf(providers, root)| <==> !Known(ProvidersOf(providers, root), c))
  {
    var list, once := ProvidersOf(providers, root), AddProvider(providers, root, c);
    if !Known(list, c) {
      assert ProvidersOf(once, root) == list + [c];
      assert ProvidersOf(once, root)[|list|].id == c.id;
    }
    assert Known(ProvidersOf(once, root), c);
  }

  /** One received message with everything its handling depends on. */
  datatype Arrival = Arrival(from: string, m: Message, clock: Clock, putFails: bool)

  function Handle(h: Hash, n: NodeState, a: Arrival): NodeState {
    NodeAfter(h, n, a.from, a.m, a.clock, a.putFails)
  }

  /** The node after a sequence of messages. */
  function HandleAll(h: Hash, n: NodeState, arrivals: seq<Arrival>): NodeState {
    if arrivals == [] then n
    else Handle(h, HandleAll(h, n, arrivals[..|arrivals| - 1]), arrivals[|arrivals| - 1])
  }

  /** The reply to a message. */
  function ReplyOf(h: Hash, n: NodeState, a: Arrival, closest: seq<Contact>): Reply {
    ReplyTo(h, Handle(h, n, a), a.m, a.putFails, closest)
  }

  /** Identity and metadata are the same, and what was stored or recorded is still there. */
  ghost predicate Remembers(n: NodeState, later: NodeState) {
    && later.id == n.id && later.addr == n.addr && later.meta == n.meta
    && (n.store.Some? <==> later.store.Some?)
    && (n.store.Some? ==> Extends(n.store.value, later.store.value))
    && forall root :: ProvidersOf(n.providers, root) <= ProvidersOf(later.providers, root)
  }

  /** Discovery messages change the table only, STORE_CHUNK the store, STORE_FILE_PROVIDER the records. */
  lemma HandleTouches(h: Hash, n: NodeState, a: Arrival)
    ensures var t := Handle(h, n, a);
            && t == n.(table := t.table, store := t.store, providers := t.providers)
            && (a.m.typ != StoreChunk ==> t.store == n.store)
            && (a.m.typ != StoreFileProvider ==> t.providers == n.providers)
  {
    LearnAllTable(n, a.m.nodes, a.clock);
  }

  lemma HandleRemembers(h: Hash, n: NodeState, a: Arrival)
    ensures Remembers(n, Handle(h, n, a))
  {
    HandleTouches(h, n, a);
    if a.m.typ == StoreFileProvider {
      RecordsAccumulate(n.providers, a.m.fileRoot, Contact(a.m.from, SenderAddr(a.from, a.m), a.clock(0)));
    }
  }

  /** Whatever messages arrive, nothing is forgotten. */
  lemma {:induction false} AllRemembered(h: Hash, n: NodeState, arrivals: seq<Arrival>)
    ensures Remembers(n, HandleAll(h, n, arrivals))
  {
    if arrivals != [] {
      AllRemembered(h, n, arrivals[..|arrivals| - 1]);
      HandleRemembers(h, HandleAll(h, n, arrivals[..|arrivals| - 1]), arrivals[|arrivals| - 1]);
    }
  }

  /** The message makes its sender a provider of root at the node with this identifier, under this address:
      the one the message gives, else the one it was received from. */
  predicate Announces(id: Id, a: Arrival, root: string, provider: Id, address: string) {
    && a.m.typ == StoreFileProvider && a.m.fileRoot == root && root != ""
    && a.m.from == provider && provider != id
    && address == if a.m.nodeAddr == "" then a.from else a.m.nodeAddr
  }

  /** The list names this provider under this address. */
  predicate Names(list: seq<Contact>, provider: Id, address: string) {
    Known(list, Contact(provider, address, 0))
  }

  lemma NamesOneMore(providers: map<string, seq<Contact>>, c: Contact, root: string, at: string, provider: Id, address: string)
    ensures Names(ProvidersOf(AddProvider(providers, at, c), root), provider, address)
            <==> || Names(ProvidersOf(providers, root), provider, address)
                 || (root == at && c.id == provider && c.address == address)
  {
    var list, all := ProvidersOf(providers, at), ProvidersOf(AddProvider(providers, at, c), at);
    if !Known(list, c) {
      assert all == list + [c] && all[|list|] == c;
      assert forall i :: 0 <= i < |list| ==> all[i] == list[i];
    }
  }

  lemma HandleNames(h: Hash, n: NodeState, a: Arrival, root: string, provider: Id, address: string)
    ensures Names(ProvidersOf(Handle(h, n, a).providers, root), provider, address)
            <==> Names(ProvidersOf(n.providers, root), provider, address) || Announces(n.id, a, root, provider, address)
  {
    HandleTouches(h, n, a);
    NamesOneMore(n.providers, Contact(a.m.from, SenderAddr(a.from, a.m), a.clock(0)), root, a.m.fileRoot, provider, address);
  }

  /** A new provider is recorded with the time of its announcement. */
  lemma NewRecordIsDated(h: Hash, n: NodeState, a: Arrival, root: string, provider: Id, address: string)
    requires Announces(n.id, a, root, provider, address) && !Names(ProvidersOf(n.providers, root), provider, address)
    ensures ProvidersOf(Handle(h, n, a).providers, root)
            == ProvidersOf(n.providers, root) + [Contact(provider, address, a.clock(0))]
  {
    RecordsAccumulate(n.providers, root, Contact(provider, address, a.clock(0)));
  }

  /** After any messages, a node records exactly the providers it had recorded before and those announced meanwhile. */
  lemma {:induction false} RecordsAreExact(h: Hash, n: NodeState, arrivals: seq<Arrival>, root: string,
                                           provider: Id, address: string)
    ensures Names(ProvidersOf(HandleAll(h, n, arrivals).providers, root), provider, address)
            <==> || Names(ProvidersOf(n.providers, root), provider, address)
                 || exists k :: 0 <= k < |arrivals| && Announces(n.id, arrivals[k], root, provider, address)
  {
    if arrivals != [] {
      var front, last := arrivals[..|arrivals| - 1], arrivals[|arrivals| - 1];
      RecordsAreExact(h, n, front, root, provider, address);
      AllRemembered(h, n, front);
      HandleNames(h, HandleAll(h, n, front), last, root, provider, address);
      assert forall k :: 0 <= k < |front| ==> arrivals[k] == front[k];
    }
  }

  /** The answer to a provider question, after any messages, names exactly the providers recorded before and those
      announced meanwhile, each under the address of its announcement. */
  lemma AnnouncedIsReported(h: Hash, n: NodeState, arrivals: seq<Arrival>, question: Arrival, closest: seq<Contact>,
                            provider: Id, address: string)
    requires question.m.typ == GetFileProviders && question.m.fileRoot != ""
    ensures var r := ReplyOf(h, HandleAll(h, n, arrivals), question, closest);
            && r.Answer? && r.m.error == "" && r.m.fileRoot == question.m.fileRoot && r.m.requestId == question.m.requestId
            && (Names(r.m.providers, provider, address)
                <==> || Names(ProvidersOf(n.providers, question.m.fileRoot), provider, address)
                     || exists k :: 0 <= k < |arrivals| && Announces(n.id, arrivals[k], question.m.fileRoot, provider, address))
  {
    RecordsAreExact(h, n, arrivals, question.m.fileRoot, provider, address);
  }

  /** STORE_CHUNK succeeds exactly for data that is not empty on a node with a store whose write, if it is needed, works.
      Then the data's identifier is answered and in the store; otherwise the node is as before. */
  lemma StoreIsAccepted(h: Hash, n: NodeState, a: Arrival, closest: seq<Contact>)
    requires a.m.typ == StoreChunk
    ensures var r, after, data := ReplyOf(h, n, a, closest), Handle(h, n, a), a.m.chunkData;
            && r.Answer?
            && (r.m.error == "" <==> n.store.Some? && data != [] && (h(data) in n.store.value || !a.putFails))
            && (r.m.error == "" ==> r.m.chunkId == Name(h(data)) && after.store.Some? && h(data) in after.store.value
                                    && (h(data) !in n.store.value ==> after.store.value[h(data)] == data))
            && (r.m.error != "" ==> after == n)
  {
  }

  /** GET_CHUNK succeeds exactly for the hex form, in either case, of an identifier in the store, and gives its bytes. */
  lemma ChunkAnswerIsExact(h: Hash, n: NodeState, a: Arrival, closest: seq<Contact>)
    requires a.m.typ == GetChunk
    ensures var r := ReplyOf(h, n, a, closest);
            && r.Answer?
            && (r.m.error == "" <==> n.store.Some? && exists id :: ParseChunkId(a.m.chunkId) == Some(id) && id in n.store.value)
            && (r.m.error == "" ==> r.m.chunkId == a.m.chunkId
                                    && r.m.chunkData == n.store.value[ParseChunkId(a.m.chunkId).value])
  {
  }

  /** GET_FILE_META succeeds exactly for roots whose metadata is recorded, and gives it. */
  lemma MetaAnswerIsExact(h: Hash, n: NodeState, a: Arrival, closest: seq<Contact>)
    requires a.m.typ == GetFileMeta
    ensures var r, root := ReplyOf(h, n, a, closest), a.m.fileRoot;
            && r.Answer? && (r.m.error == "" <==> root != "" && root in n.meta)
            && (r.m.error == "" ==> r.m.fileRoot == root && r.m.fileMeta == Some(n.meta[root]))
  {
  }

  /** After a chunk was stored, whatever messages follow, asking for the identifier in its answer gives the bytes
      back, or bytes that collide with them. */
  lemma StoredIsFetched(h: Hash, n: NodeState, stored: Arrival, arrivals: seq<Arrival>, question: Arrival, closest: seq<Contact>)
    requires stored.m.typ == StoreChunk && n.store.Some? && Consistent(h, n.store.value)
    requires var answer := ReplyOf(h, n, stored, closest);
             question.m.typ == GetChunk && answer.Answer? && answer.m.error == "" && question.m.chunkId == answer.m.chunkId
    ensures var r := ReplyOf(h, HandleAll(h, Handle(h, n, stored), arrivals), question, closest);
            && r.Answer? && r.m.error == "" && r.m.chunkId == question.m.chunkId && r.m.requestId == question.m.requestId
            && (r.m.chunkData == stored.m.chunkData || Collision(h, r.m.chunkData, stored.m.chunkData))
  {
    NameParses(h(stored.m.chunkData));
    AllRemembered(h, Handle(h, n, stored), arrivals);
  }

  /** Metadata that a node recorded is the answer to every later question for its root, until it records other
      metadata for the same root. */
  lemma RecordedMetaIsReported(h: Hash, n: NodeState, file: FileMeta, arrivals: seq<Arrival>, question: Arrival,
                               closest: seq<Contact>)
    requires question.m.typ == GetFileMeta && question.m.fileRoot == Name(file.root)
    ensures var r := ReplyOf(h, HandleAll(h, n.(meta := AddMeta(n.meta, file)), arrivals), question, closest);
            r.Answer? && r.m.error == "" && r.m.fileMeta == Some(file) && r.m.requestId == question.m.requestId
  {
    AllRemembered(h, n.(meta := AddMeta(n.meta, file)), arrivals);
  }

  // ---------- the node object ----------

  class DhtNode {
    const h: Hash
    const id: Id
    const rt: RoutingTable
    const store: ChunkStore?
    const addr: string
    var fileProviders: map<string, seq<Contact>>
    var fileMeta: map<string, FileMeta>

    ghost predicate Valid()
      reads this, rt, rt.buckets
    {
      rt.Valid() && rt.owner == id && (store != null ==> store.hash == h)
    }

    ghost function StateOf(): NodeState
      requires Valid()
      reads this, rt, rt.buckets, if store == null then {} else {store}
    {
      NodeState(id, addr, rt.Contents(), if store == null then None else Some(store.chunks), fileProviders, fileMeta)
    }

    constructor (h: Hash, id: Id, addr: string, store: ChunkStore?)
      requires store != null ==> store.hash == h
      ensures Valid() && fresh(rt) && fresh(rt.buckets) && this.store == store
      ensures StateOf() == NodeState(id, addr, EmptyTable(), if store == null then None else Some(store.chunks), map[], map[])
    {
      this.h, this.id, this.addr, this.store := h, id, addr, store;
      rt := new RoutingTable(id);
      fileProviders, fileMeta := map[], map[];
    }

    /** Scans for the same identifier and address, and appends if there is none. */
    method AddFileProvider(root: string, c: Contact)
      modifies this`fileProviders
      ensures fileProviders == AddProvider(old(fileProviders), root, c)
    {
      var list := if root in fileProviders then fileProviders[root] else [];
      ghost var before := fileProviders;
      assert list == ProvidersOf(before, root);
      for i := 0 to |list|
        invariant fileProviders == before
        invariant forall k :: 0 <= k < i ==> !(list[k].id == c.id && list[k].address == c.address)
      {
        var same := Equals(list[i].id, c.id);
        if same && list[i].address == c.address {
          assert Known(ProvidersOf(before, root), c);
          return;
        }
      }
      assert !Known(ProvidersOf(before, root), c);
      fileProviders := fileProviders[root := list + [c]];
    }

    method AddFileMeta(file: Option<FileMeta>)
      modifies this`fileMeta
      ensures fileMeta == if file.None? then old(fileMeta) else AddMeta(old(fileMeta), file.value)
    {
      if file.None? {
        return;
      }
      fileMeta := fileMeta[Name(file.value.root) := file.value];
    }

    /** Adds the sender of a message to the routing table, unless it is this node. */
    method LearnSender(from: string, m: Message, now: int)
      requires Valid()
      modifies rt.buckets
      ensures Valid() && rt.Contents() == AddToTable(id, old(rt.Contents()), Contact(m.from, SenderAddr(from, m), 0), now)
    {
      var address := from;
      if m.nodeAddr != "" {
        address := m.nodeAddr;
      }
      var own := Equals(m.from, id);
      if !own {
        rt.AddContact(Contact(m.from, address, 0), now);
      }
    }

    method LearnNodes(nodes: seq<Contact>, clock: Clock)
      requires Valid()
      modifies rt.buckets
      ensures Valid()
      ensures rt.Contents() == LearnAll(old(StateOf()), nodes, clock).table
    {
      ghost var start := StateOf();
      LearnAllTable(start, [], clock);
      for i := 0 to |nodes|
        invariant Valid() && rt.Contents() == LearnAll(start, nodes[..i], clock).table
      {
        assert nodes[..i + 1][..i] == nodes[..i];
        LearnAllTable(start, nodes[..i], clock);
        var own := Equals(nodes[i].id, id);
        if !own {
          rt.AddContact(Contact(nodes[i].id, nodes[i].address, 0), clock(i));
        }
      }
      assert nodes[..|nodes|] == nodes;
    }

    predicate IsDiscovery(t: MsgType) {
      t == Ping || t == Pong || t == FindNode || t == Nodes
    }

    /** The branches that maintain the routing table. */
    method HandleDiscovery(from: string, m: Message, clock: Clock) returns (reply: Reply, ghost closest: seq<Contact>)
      requires Valid() && IsDiscovery(m.typ)
      modifies rt.buckets
      ensures Valid()
      ensures StateOf() == NodeAfter(h, old(StateOf()), from, m, clock, false)
      ensures reply == ReplyTo(h, StateOf(), m, false, closest) && ClosestTo(StateOf(), m, closest)
    {
      closest := [];
      match m.typ {
        case Ping =>
          LearnSender(from, m, clock(0));
          return Answer(Message(Pong, id, nodeAddr := addr)), closest;
        case Pong =>
          LearnSender(from, m, clock(0));
          return Nothing, closest;
        case FindNode =>
          if m.target.None? {
            return Failure, closest;
          }
          LearnSender(from, m, clock(0));
          var nodes := rt.FindClosest(m.target.value, K);
          closest := nodes;
          return Answer(Message(Nodes, id, nodeAddr := addr, nodes := nodes)), closest;
        case Nodes =>
          LearnNodes(m.nodes, clock);
          LearnAllTable(old(StateOf()), m.nodes, clock);
          LearnSender(from, m, clock(|m.nodes|));
          return Nothing, closest;
      }
    }

    /** HandleRPC without the decoding: updates the node and gives the reply. */
    method HandleRPC(from: string, m: Message, clock: Clock) returns (reply: Reply, ghost closest: seq<Contact>)
      requires Valid()
      modifies this, rt.buckets, if store == null then {} else {store}
      ensures Valid()
      ensures var putFails := store != null && old(store.failures) != [] && old(store.failures)[0];
              && StateOf() == NodeAfter(h, old(StateOf()), from, m, clock, putFails)
              && reply == ReplyTo(h, StateOf(), m, putFails, closest)
              && ClosestTo(StateOf(), m, closest)
    {
      closest := [];
      if IsDiscovery(m.typ) {
        reply, closest := HandleDiscovery(from, m, clock);
        return;
      }
      match m.typ {
        case StoreChunk => reply := HandleStoreChunk(m);
        case GetChunk => reply := HandleGetChunk(m);
        case StoreFileProvider =>
          HandleStoreProvider(from, m, clock(0));
          reply := Nothing;
        case GetFileProviders => reply := HandleGetProviders(m);
        case GetFileMeta => reply := HandleGetMeta(m);
        case _ => reply := Nothing;
      }
    }

    method HandleStoreChunk(m: Message) returns (reply: Reply)
      requires Valid() && m.typ == StoreChunk
      modifies if store == null then {} else {store}
      ensures Valid()
      ensures var putFails := store != null && old(store.failures) != [] && old(store.failures)[0];
              && StateOf() == NodeAfter(h, old(StateOf()), "", m, _ => 0, putFails)
              && reply == ReplyTo(h, StateOf(), m, putFails, [])
    {
      var r := Message(StoreChunkResult, id, nodeAddr := addr, requestId := m.requestId);
      if store == null {
        return Answer(r.(error := "no local chunk store configured"));
      }
      if |m.chunkData| == 0 {
        return Answer(r.(error := "empty chunk data"));
      }
      var put := store.PutChunk(m.chunkData);
      if put.Err? {
        return Answer(r.(error := "store error"));
      }
      return Answer(r.(chunkId := Name(put.value)));
    }

    method HandleStoreProvider(from: string, m: Message, now: int)
      requires m.typ == StoreFileProvider
      modifies this`fileProviders
      ensures fileProviders == if m.fileRoot == "" || m.from == id then old(fileProviders)
                               else AddProvider(old(fileProviders), m.fileRoot, Contact(m.from, SenderAddr(from, m), now))
    {
      if m.fileRoot == "" {
        return;
      }
      var address := if m.nodeAddr != "" then m.nodeAddr else from;
      var own := Equals(m.from, id);
      if !own {
        AddFileProvider(m.fileRoot, Contact(m.from, address, now));
      }
    }

    method HandleGetProviders(m: Message) returns (reply: Reply)
      requires Valid() && m.typ == GetFileProviders
      ensures reply == ReplyTo(h, StateOf(), m, false, [])
    {
      var r := Message(FileProviders, id, nodeAddr := addr, requestId := m.requestId);
      if m.fileRoot == "" {
        return Answer(r.(error := "missing file_root"));
      }
      var list := if m.fileRoot in fileProviders then fileProviders[m.fileRoot] else [];
      return Answer(r.(fileRoot := m.fileRoot, providers := list));
    }

    method HandleGetMeta(m: Message) returns (reply: Reply)
      requires Valid() && m.typ == GetFileMeta
      ensures reply == ReplyTo(h, StateOf(), m, false, [])
    {
      var r := Message(FileMetaReply, id, nodeAddr := addr, requestId := m.requestId);
      if m.fileRoot == "" {
        return Answer(r.(error := "missing file_root"));
      }
      if m.fileRoot !in fileMeta {
        return Answer(r.(fileRoot := m.fileRoot, error := "file meta not found"));
      }
      return Answer(r.(fileRoot := m.fileRoot, fileMeta := Some(fileMeta[m.fileRoot])));
    }

    method HandleGetChunk(m: Message) returns (reply: Reply)
      requires Valid() && m.typ == GetChunk
      ensures reply == ReplyTo(h, StateOf(), m, false, [])
    {
      var r := Message(ChunkData, id, nodeAddr := addr, requestId := m.requestId, chunkId := m.chunkId);
      if store == null {
        return Answer(r.(error := "no local chunk store configured"));
      }
      if m.chunkId == "" {
        return Answer(r.(error := "missing chunk_id"));
      }
      var chunkId := ParseChunkId(m.chunkId);
      if chunkId.None? {
        return Answer(r.(error := "invalid chunk_id"));
      }
      var got := store.GetChunk(chunkId.value);
      if got.Err? {
        return Answer(r.(error := "chunk not found"));
      }
      return Answer(r.(chunkData := got.value));
    }
  }

  lemma {:induction false} LearnAllTable(n: NodeState, nodes: seq<Contact>, clock: Clock)
    ensures LearnAll(n, nodes, clock) == n.(table := LearnAll(n, nodes, clock).table)
  {
    if nodes != [] {
      LearnAllTable(n, nodes[..|nodes| - 1], clock);
    }
  }
}
