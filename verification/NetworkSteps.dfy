/** Every step of the network keeps its invariant. */
module NetworkSteps {
  import opened Ids
  import opened Routing
  import opened Chunks
  import Files
  import opened Messages
  import opened Node
  import opened Network

  // ---------- every step keeps the invariant ----------

  /** Everything that was good before a growing step is good after it. */
  lemma OldStaysGood(h: Hash, s: Sys, t: Sys)
    requires Inv(h, s) && Grows(s, t) && IdsGrow(s, t)
    ensures RealIds(t) == RealIds(s)
    ensures forall p :: p in s.net ==> GoodMessage(t, p.m)
    ensures forall f :: f in s.found ==> Holds(t, f.0, f.1.id)
    ensures forall p, root :: p in s.nodes && root in s.nodes[p].providers ==> AllHold(t, root, s.nodes[p].providers[root])
    ensures forall upload :: upload in s.uploads ==>
              s.uploads[upload].peer in t.nodes && t.nodes[s.uploads[upload].peer].store.Some? && GoodUpload(h, t, s.uploads[upload])
  {
    GrowsKeeps(s, t);
    forall p | p in s.net ensures GoodMessage(t, p.m) {
      GrowsKeepsMessage(s, t, p.m);
    }
    forall upload | upload in s.uploads
      ensures s.uploads[upload].peer in t.nodes && t.nodes[s.uploads[upload].peer].store.Some? && GoodUpload(h, t, s.uploads[upload])
    {
      GrowsKeepsUpload(h, s, t, s.uploads[upload]);
    }
  }

  /** What a step adds is good; everything else it takes over from s. */
  ghost predicate NewIsGood(h: Hash, s: Sys, t: Sys) {
    && (forall p, root :: p in t.nodes && root in t.nodes[p].providers ==>
          (p in s.nodes && root in s.nodes[p].providers && t.nodes[p].providers[root] == s.nodes[p].providers[root])
          || AllHold(t, root, t.nodes[p].providers[root]))
    && (forall i :: 0 <= i < |t.net| ==> t.net[i] in s.net || GoodMessage(t, t.net[i].m))
    && (forall upload :: upload in t.uploads ==>
          (upload in s.uploads && t.uploads[upload] == s.uploads[upload])
          || (t.uploads[upload].peer in t.nodes && t.nodes[t.uploads[upload].peer].store.Some? && GoodUpload(h, t, t.uploads[upload])))
    && (forall f :: f in t.found ==> f in s.found || Holds(t, f.0, f.1.id))
  }

  lemma Reassemble(h: Hash, s: Sys, t: Sys)
    requires Inv(h, s) && Grows(s, t) && IdsGrow(s, t) && NodesGood(h, t) && NewIsGood(h, s, t)
    ensures Inv(h, t)
  {
    OldStaysGood(h, s, t);
  }

  /** Replacing one node by a good one that has grown. */
  lemma OneNodeGrows(h: Hash, s: Sys, t: Sys, peer: Peer, n: NodeState)
    requires NodesGood(h, s) && peer in s.nodes && t.nodes == s.nodes[peer := n]
    requires NodeGrows(s.nodes[peer], n) && GoodNode(h, n, RealIds(s))
    ensures Grows(s, t) && RealIds(t) == RealIds(s) && NodesGood(h, t)
  {
    GrowsKeeps(s, t);
  }

  lemma SameNodesGrow(h: Hash, s: Sys, t: Sys)
    requires NodesGood(h, s) && t.nodes == s.nodes
    ensures Grows(s, t) && NodesGood(h, t)
  {
  }

  lemma UpdateGrows(h: Hash, s: Sys, peer: Peer, n: NodeState, uploads: map<nat, Upload>, net: seq<Packet>)
    requires Inv(h, s) && peer in s.nodes && NodeGrows(s.nodes[peer], n) && GoodNode(h, n, RealIds(s))
    ensures var t := Update(s, peer, n, uploads, net);
            && Grows(s, t) && IdsGrow(s, t) && RealIds(t) == RealIds(s) && NodesGood(h, t)
            && (forall root, id :: Holds(s, root, id) ==> Holds(t, root, id))
  {
    var t := Update(s, peer, n, uploads, net);
    OneNodeGrows(h, s, t, peer, n);
    GrowsKeeps(s, t);
  }

  lemma UpdateKeepsInv(h: Hash, s: Sys, peer: Peer, n: NodeState, uploads: map<nat, Upload>, net: seq<Packet>)
    requires Inv(h, s) && peer in s.nodes && NodeGrows(s.nodes[peer], n) && GoodNode(h, n, RealIds(s))
    requires var t := Update(s, peer, n, uploads, net);
             && (forall r :: r in n.providers ==> AllHold(t, r, n.providers[r]))
             && (forall i :: 0 <= i < |net| ==> net[i] in s.net || GoodMessage(t, net[i].m))
             && (forall upload :: upload in uploads ==>
                   (upload in s.uploads && uploads[upload] == s.uploads[upload])
                   || (uploads[upload].peer == peer && n.store.Some? && GoodUpload(h, t, uploads[upload])))
    ensures Inv(h, Update(s, peer, n, uploads, net))
  {
    UpdateGrows(h, s, peer, n, uploads, net);
    Reassemble(h, s, Update(s, peer, n, uploads, net));
  }

  /** The same for a step of one upload on its own peer that sends nothing. */
  lemma UploadStepKeepsInv(h: Hash, s: Sys, n: NodeState, upload: nat, job: Upload)
    requires Inv(h, s) && job.peer in s.nodes && NodeGrows(s.nodes[job.peer], n) && GoodNode(h, n, RealIds(s))
    requires var t := Update(s, job.peer, n, s.uploads[upload := job], s.net);
             && (forall r :: r in n.providers ==> AllHold(t, r, n.providers[r]))
             && n.store.Some? && GoodUpload(h, t, job)
    ensures Inv(h, Update(s, job.peer, n, s.uploads[upload := job], s.net))
  {
    UpdateKeepsInv(h, s, job.peer, n, s.uploads[upload := job], s.net);
  }

  /** Good records stay good when nothing but new metadata is added. */
  lemma RecordsStay(h: Hash, s: Sys, peer: Peer, n: NodeState, uploads: map<nat, Upload>, net: seq<Packet>)
    requires Inv(h, s) && peer in s.nodes && NodeGrows(s.nodes[peer], n) && GoodNode(h, n, RealIds(s))
    ensures forall r :: r in s.nodes[peer].providers ==> AllHold(Update(s, peer, n, uploads, net), r, s.nodes[peer].providers[r])
  {
    UpdateGrows(h, s, peer, n, uploads, net);
  }

  lemma SendKeepsInv(h: Hash, s: Sys, p: Packet)
    requires Inv(h, s) && GoodMessage(s, p.m)
    ensures Inv(h, Send(s, p))
  {
    var t := Send(s, p);
    SameNodesGrow(h, s, t);
    GrowsKeepsMessage(s, t, p.m);
    Reassemble(h, s, t);
  }

  // Storing a file.

  lemma StartStoreStep(h: Hash, s: Sys, upload: nat, peer: Peer, data: Bytes, size: nat)
    requires Inv(h, s) && upload !in s.uploads && peer in s.nodes && s.nodes[peer].store.Some? && size > 0
    ensures Inv(h, SetUpload(s, upload, Storing(peer, data, size, 0)))
  {
    var t := SetUpload(s, upload, Storing(peer, data, size, 0));
    SameNodesGrow(h, s, t);
    Reassemble(h, s, t);
  }

  lemma DropUploadStep(h: Hash, s: Sys, upload: nat)
    requires Inv(h, s)
    ensures Inv(h, s.(uploads := s.uploads - {upload}))
  {
    var t := s.(uploads := s.uploads - {upload});
    SameNodesGrow(h, s, t);
    Reassemble(h, s, t);
  }

  lemma PutOnNode(h: Hash, n: NodeState, ids: set<Id>, block: Bytes)
    requires GoodNode(h, n, ids) && n.store.Some? && block != []
    ensures var m := n.(store := Some(Put(h, n.store.value, block))); GoodNode(h, m, ids) && NodeGrows(n, m)
  {
    var m := n.(store := Some(Put(h, n.store.value, block)));
    forall root | root in m.meta
      ensures Backed(h, m, root)
    {
      BackedStays(h, n, m, root);
    }
  }

  lemma BlockIsPut(h: Hash, s: Sys, t: Sys, job: Upload)
    requires job.Storing? && job.peer in s.nodes && s.nodes[job.peer].store.Some? && GoodUpload(h, s, job)
    requires job.done < |Blocks(job)|
    requires job.peer in t.nodes && t.nodes[job.peer].store == Some(Put(h, s.nodes[job.peer].store.value, Blocks(job)[job.done]))
    ensures GoodUpload(h, t, job.(done := job.done + 1))
  {
    assert Blocks(job.(done := job.done + 1)) == Blocks(job);
  }

  lemma BlockIsReady(h: Hash, s: Sys, upload: nat)
    requires Inv(h, s) && UploadsPlaced(s) && HasBlock(s, upload)
    ensures var job, m := s.uploads[upload], NodeWithBlock(h, s, upload);
            var uploads := s.uploads[upload := job.(done := job.done + 1)];
            var t := Update(s, job.peer, m, uploads, s.net);
            && NodeGrows(s.nodes[job.peer], m) && GoodNode(h, m, RealIds(s))
            && GoodUpload(h, t, job.(done := job.done + 1))
            && forall r :: r in m.providers ==> AllHold(t, r, m.providers[r])
  {
    var job, m := s.uploads[upload], NodeWithBlock(h, s, upload);
    var uploads := s.uploads[upload := job.(done := job.done + 1)];
    assert NextBlock(s, upload) != [] by { Files.BlocksShape(job.data, job.size); }
    PutOnNode(h, s.nodes[job.peer], RealIds(s), NextBlock(s, upload));
    assert GoodUpload(h, s, job);
    BlockIsPut(h, s, Update(s, job.peer, m, uploads, s.net), job);
    RecordsStay(h, s, job.peer, m, uploads, s.net);
  }

  lemma PutBlockStep(h: Hash, s: Sys, upload: nat)
    requires Inv(h, s) && UploadsPlaced(s) && HasBlock(s, upload)
    ensures Inv(h, AfterBlock(h, s, upload))
  {
    BlockIsReady(h, s, upload);
    UploadStepKeepsInv(h, s, NodeWithBlock(h, s, upload), upload, s.uploads[upload].(done := s.uploads[upload].done + 1));
  }

  /** Once all blocks are stored, the metadata built from them is backed. */
  lemma NewMetaIsBacked(h: Hash, n: NodeState, data: Bytes, size: nat)
    requires size > 0 && data != [] && n.store.Some? && GoodStore(h, n.store.value)
    requires forall k :: 0 <= k < |Files.Blocks(data, size)| ==> h(Files.Blocks(data, size)[k]) in n.store.value
    ensures var file := Files.MetaOf(h, data, size);
            Backed(h, n.(meta := AddMeta(n.meta, file)), Name(file.root))
  {
    var file := Files.MetaOf(h, data, size);
    forall i | 0 <= i < |file.chunks|
      ensures file.chunks[i].id == h(Files.Blocks(data, size)[i])
    {
    }
    assert Genuine(h, file);
  }

  lemma MetaOnNode(h: Hash, n: NodeState, ids: set<Id>, file: Files.FileMeta)
    requires GoodNode(h, n, ids) && n.store.Some?
    requires Backed(h, n.(meta := AddMeta(n.meta, file)), Name(file.root))
    ensures var m := n.(meta := AddMeta(n.meta, file)); GoodNode(h, m, ids) && NodeGrows(n, m)
  {
    var m := n.(meta := AddMeta(n.meta, file));
    forall root | root in m.meta
      ensures Backed(h, m, root)
    {
      if root != Name(file.root) {
        BackedStays(h, n, m, root);
      }
    }
  }

  lemma RegisterMetaStep(h: Hash, s: Sys, upload: nat)
    requires Enabled(h, s, RegisterMeta(upload)) && s.uploads[upload].peer in s.nodes
    requires Inv(h, s)
    ensures var job := s.uploads[upload];
            var n, file := s.nodes[job.peer], Files.MetaOf(h, job.data, job.size);
            Inv(h, Update(s, job.peer, n.(meta := AddMeta(n.meta, file)), s.uploads[upload := Registered(job.peer, file)], s.net))
  {
    var job := s.uploads[upload];
    var n, file := s.nodes[job.peer], Files.MetaOf(h, job.data, job.size);
    var m, next := n.(meta := AddMeta(n.meta, file)), Registered(job.peer, file);
    assert GoodUpload(h, s, job);
    NewMetaIsBacked(h, n, job.data, job.size);
    MetaOnNode(h, n, RealIds(s), file);
    RecordsStay(h, s, job.peer, m, s.uploads[upload := next], s.net);
    UploadStepKeepsInv(h, s, m, upload, next);
  }

  // Announcing it.

  /** A new record changes at most the list of its own root, and that list stays good. */
  lemma AddProviderHolds(s: Sys, providers: map<string, seq<Contact>>, root: string, c: Contact)
    requires forall r :: r in providers ==> AllHold(s, r, providers[r])
    requires Holds(s, root, c.id)
    ensures forall r :: r in AddProvider(providers, root, c) ==> AllHold(s, r, AddProvider(providers, root, c)[r])
  {
  }

  lemma RecordOnNode(h: Hash, n: NodeState, ids: set<Id>, providers: map<string, seq<Contact>>)
    requires GoodNode(h, n, ids)
    ensures GoodNode(h, n.(providers := providers), ids) && NodeGrows(n, n.(providers := providers))
  {
    forall root | root in n.meta
      ensures Backed(h, n.(providers := providers), root)
    {
      assert Backed(h, n, root);
    }
  }

  lemma AnnounceSelfStep(h: Hash, s: Sys, upload: nat, now: int)
    requires upload in s.uploads && s.uploads[upload].Registered? && s.uploads[upload].peer in s.nodes
    requires Inv(h, s)
    ensures var job := s.uploads[upload];
            var n := s.nodes[job.peer];
            var records := AddProvider(n.providers, Name(job.file.root), Contact(n.id, n.addr, now));
            Inv(h, Update(s, job.peer, n.(providers := records), s.uploads[upload := Announcing(job.peer, job.file.root)], s.net))
  {
    var job := s.uploads[upload];
    var n, root := s.nodes[job.peer], Name(job.file.root);
    var own := Contact(n.id, n.addr, now);
    var m, next := n.(providers := AddProvider(n.providers, root, own)), Announcing(job.peer, job.file.root);
    assert GoodUpload(h, s, job);
    RecordOnNode(h, n, RealIds(s), m.providers);
    RecordsStay(h, s, job.peer, m, s.uploads[upload := next], s.net);
    var t := Update(s, job.peer, m, s.uploads[upload := next], s.net);
    assert t.nodes[job.peer].id == n.id && root in t.nodes[job.peer].meta;
    AddProviderHolds(t, n.providers, root, own);
    UploadStepKeepsInv(h, s, m, upload, next);
  }

  lemma SendRecordStep(h: Hash, s: Sys, upload: nat, dst: Peer, seenFrom: string)
    requires upload in s.uploads && s.uploads[upload].Announcing? && s.uploads[upload].peer in s.nodes
    requires Inv(h, s)
    ensures var job := s.uploads[upload];
            Inv(h, Send(s, Packet(job.peer, dst, seenFrom,
                                  Message(StoreFileProvider, s.nodes[job.peer].id, fileRoot := Name(job.root)))))
  {
    var job := s.uploads[upload];
    var m := Message(StoreFileProvider, s.nodes[job.peer].id, fileRoot := Name(job.root));
    assert GoodUpload(h, s, job);
    assert Holds(s, m.fileRoot, m.from) by {
      assert s.nodes[job.peer].id == m.from && m.fileRoot in s.nodes[job.peer].meta;
    }
    SendKeepsInv(h, s, Packet(job.peer, dst, seenFrom, m));
  }

  // Other sends, and losses.

  lemma NewIdStep(h: Hash, s: Sys, req: string)
    requires Inv(h, s)
    ensures Inv(h, s.(used := s.used + {req}))
  {
    var t := s.(used := s.used + {req});
    SameNodesGrow(h, s, t);
    Reassemble(h, s, t);
  }

  lemma ClientSendStep(h: Hash, s: Sys, peer: Peer, dst: Peer, seenFrom: string, m: Message)
    requires Inv(h, s) && Enabled(h, s, ClientSend(peer, dst, seenFrom, m))
    ensures Inv(h, Send(s, Packet(peer, dst, seenFrom, m)).(used := s.used + {m.requestId}))
  {
    var t := s.(used := s.used + {m.requestId});
    NewIdStep(h, s, m.requestId);
    assert GoodMessage(t, m);
    SendKeepsInv(h, t, Packet(peer, dst, seenFrom, m));
  }

  lemma NewQuestionStep(h: Hash, s: Sys, req: string, q: Question)
    requires Inv(h, s) && req != "" && req !in s.used
    ensures Inv(h, s.(used := s.used + {req}, asked := s.asked[req := q]))
  {
    var t := s.(used := s.used + {req}, asked := s.asked[req := q]);
    SameNodesGrow(h, s, t);
    Reassemble(h, s, t);
  }

  lemma AskProvidersStep(h: Hash, s: Sys, peer: Peer, dst: Peer, seenFrom: string, req: string, root: ChunkId)
    requires Inv(h, s) && Enabled(h, s, AskProviders(peer, dst, seenFrom, req, root))
    ensures Inv(h, Send(s, Packet(peer, dst, seenFrom,
                                  Message(GetFileProviders, s.nodes[peer].id, requestId := req, fileRoot := Name(root))))
                   .(used := s.used + {req}, asked := s.asked[req := Question(peer, Name(root))]))
  {
    var t := s.(used := s.used + {req}, asked := s.asked[req := Question(peer, Name(root))]);
    var m := Message(GetFileProviders, s.nodes[peer].id, requestId := req, fileRoot := Name(root));
    NewQuestionStep(h, s, req, Question(peer, Name(root)));
    assert GoodMessage(t, m);
    SendKeepsInv(h, t, Packet(peer, dst, seenFrom, m));
  }

  lemma LoseStep(h: Hash, s: Sys, i: nat)
    requires Inv(h, s) && i < |s.net|
    ensures Inv(h, s.(net := DropPacket(s.net, i)))
  {
    var t := s.(net := DropPacket(s.net, i));
    SameNodesGrow(h, s, t);
    Reassemble(h, s, t);
  }

  // Deliveries.

  lemma ClosestAreReal(n: NodeState, m: Message, closest: seq<Contact>, ids: set<Id>)
    requires TableWithin(n.table, ids) && ClosestTo(n, m, closest) && m.typ == FindNode && m.target.Some?
    ensures forall i :: 0 <= i < |closest| ==> closest[i].id in ids
  {
    forall i | 0 <= i < |closest|
      ensures closest[i].id in ids
    {
      assert closest[i] in AllContacts(n.table);
      FlattenMembers(n.table, ID_BITS, closest[i]);
    }
  }

  lemma ReplyShape(h: Hash, n: NodeState, m: Message, putFails: bool, closest: seq<Contact>)
    ensures var r := ReplyTo(h, n, m, putFails, closest);
            r.Answer? ==>
              && r.m.from == n.id && r.m.typ != StoreFileProvider && r.m.typ != GetFileProviders
              && (r.m.requestId == "" || r.m.requestId == m.requestId)
              && (r.m.nodes == [] || (m.typ == FindNode && m.target.Some? && r.m.nodes == closest))
              && (r.m.providers != [] ==>
                    && r.m.typ == FileProviders && m.typ == GetFileProviders && r.m.fileRoot == m.fileRoot
                    && m.fileRoot in n.providers && r.m.providers == n.providers[m.fileRoot])
  {
  }

  lemma ReplyIsGood(h: Hash, s: Sys, n: NodeState, m: Message, putFails: bool, closest: seq<Contact>)
    requires GoodMessage(s, m) && "" !in s.asked && n.id in RealIds(s)
    requires m.typ == FindNode && m.target.Some? ==> forall i :: 0 <= i < |closest| ==> closest[i].id in RealIds(s)
    requires forall r :: r in n.providers ==> AllHold(s, r, n.providers[r])
    ensures var r := ReplyTo(h, n, m, putFails, closest); r.Answer? ==> GoodMessage(s, r.m)
  {
    ReplyShape(h, n, m, putFails, closest);
  }

  lemma ToldIsGood(s: Sys, p: Packet)
    requires GoodMessage(s, p.m)
    ensures forall f :: f in Told(s, p) ==> Holds(s, f.0, f.1.id)
  {
  }

  lemma InterceptStep(h: Hash, s: Sys, i: nat)
    requires Inv(h, s) && i < |s.net|
    ensures Inv(h, s.(net := DropPacket(s.net, i), found := s.found + Told(s, s.net[i])))
  {
    var t := s.(net := DropPacket(s.net, i), found := s.found + Told(s, s.net[i]));
    SameNodesGrow(h, s, t);
    GrowsKeeps(s, t);
    ToldIsGood(s, s.net[i]);
    Reassemble(h, s, t);
  }

  /** One record more, or none: all records are still good. */
  lemma MessageKeepsRecords(h: Hash, s: Sys, n: NodeState, from: string, m: Message, clock: Clock, putFails: bool)
    requires GoodMessage(s, m) && forall r :: r in n.providers ==> AllHold(s, r, n.providers[r])
    ensures var t := NodeAfter(h, n, from, m, clock, putFails);
            forall r :: r in t.providers ==> AllHold(s, r, t.providers[r])
  {
    MessageOnRest(h, n, from, m, clock, putFails);
    if m.typ == StoreFileProvider {
      AddProviderHolds(s, n.providers, m.fileRoot, Contact(m.from, SenderAddr(from, m), clock(0)));
    }
  }

  lemma HandledIsGood(h: Hash, s: Sys, i: nat, clock: Clock, putFails: bool)
    requires Inv(h, s) && i < |s.net| && s.net[i].dst in s.nodes
    ensures var p := s.net[i];
            var n := HandledNode(h, s, p, clock, putFails);
            && GoodNode(h, n, RealIds(s)) && NodeGrows(s.nodes[p.dst], n)
  {
    var p := s.net[i];
    assert GoodMessage(s, p.m) && GoodNode(h, s.nodes[p.dst], RealIds(s));
    MessageKeepsGoodNode(h, s.nodes[p.dst], p.seenFrom, p.m, clock, putFails, RealIds(s));
    MessageOnRest(h, s.nodes[p.dst], p.seenFrom, p.m, clock, putFails);
  }

  lemma HandledNetIsGood(h: Hash, s: Sys, t: Sys, i: nat, clock: Clock, putFails: bool, closest: seq<Contact>, seenFrom: string)
    requires i < |s.net| && s.net[i].dst in s.nodes && GoodMessage(t, s.net[i].m) && AskedUsed(t)
    requires var n := HandledNode(h, s, s.net[i], clock, putFails);
             && ClosestTo(n, s.net[i].m, closest)
             && TableWithin(n.table, RealIds(t)) && n.id in RealIds(t)
             && forall r :: r in n.providers ==> AllHold(t, r, n.providers[r])
    ensures var net := HandledNet(h, s, i, clock, putFails, closest, seenFrom);
            forall k :: 0 <= k < |net| ==> net[k] in s.net || GoodMessage(t, net[k].m)
  {
    var m, n := s.net[i].m, HandledNode(h, s, s.net[i], clock, putFails);
    if m.typ == FindNode && m.target.Some? {
      ClosestAreReal(n, m, closest, RealIds(t));
    }
    ReplyIsGood(h, t, n, m, putFails, closest);
  }

  lemma HandleStep(h: Hash, s: Sys, i: nat, clock: Clock, putFails: bool, closest: seq<Contact>, seenFrom: string)
    requires Inv(h, s) && i < |s.net| && s.net[i].dst in s.nodes
    requires ClosestTo(HandledNode(h, s, s.net[i], clock, putFails), s.net[i].m, closest)
    ensures Inv(h, Update(s, s.net[i].dst, HandledNode(h, s, s.net[i], clock, putFails), s.uploads,
                          HandledNet(h, s, i, clock, putFails, closest, seenFrom)))
  {
    var p, n := s.net[i], HandledNode(h, s, s.net[i], clock, putFails);
    var net := HandledNet(h, s, i, clock, putFails, closest, seenFrom);
    var t := Update(s, p.dst, n, s.uploads, net);
    HandledIsGood(h, s, i, clock, putFails);
    UpdateGrows(h, s, p.dst, n, s.uploads, net);
    RecordsStay(h, s, p.dst, n, s.uploads, net);
    assert GoodMessage(s, p.m);
    GrowsKeepsMessage(s, t, p.m);
    MessageKeepsRecords(h, t, s.nodes[p.dst], p.seenFrom, p.m, clock, putFails);
    HandledNetIsGood(h, s, t, i, clock, putFails, closest, seenFrom);
    UpdateKeepsInv(h, s, p.dst, n, s.uploads, net);
  }

  // All together.

  lemma PutBlockEventKeepsInv(h: Hash, s: Sys, upload: nat, fails: bool)
    requires Inv(h, s) && UploadsPlaced(s) && Enabled(h, s, PutBlock(upload, fails))
    ensures Inv(h, Step(h, s, PutBlock(upload, fails)))
  {
    var job := s.uploads[upload];
    if fails && h(NextBlock(s, upload)) !in s.nodes[job.peer].store.value {
      DropUploadStep(h, s, upload);
    } else {
      PutBlockStep(h, s, upload);
    }
  }

  lemma StoreEventKeepsInv(h: Hash, s: Sys, e: Event)
    requires Inv(h, s) && UploadsPlaced(s) && Enabled(h, s, e) && (e.StartStore? || e.PutBlock? || e.RegisterMeta?)
    ensures Inv(h, Step(h, s, e))
  {
    if e.StartStore? {
      StartStoreStep(h, s, e.upload, e.peer, e.data, e.size);
    } else if e.RegisterMeta? {
      RegisterMetaStep(h, s, e.upload);
    } else {
      PutBlockEventKeepsInv(h, s, e.upload, e.fails);
    }
  }

  lemma SendEventKeepsInv(h: Hash, s: Sys, e: Event)
    requires Inv(h, s) && UploadsPlaced(s) && Enabled(h, s, e)
    requires e.AnnounceSelf? || e.SendRecord? || e.ClientSend? || e.AskProviders?
    ensures Inv(h, Step(h, s, e))
  {
    if e.AnnounceSelf? {
      AnnounceSelfStep(h, s, e.upload, e.now);
    } else if e.SendRecord? {
      SendRecordStep(h, s, e.upload, e.dst, e.seenFrom);
    } else if e.ClientSend? {
      ClientSendStep(h, s, e.peer, e.dst, e.seenFrom, e.m);
    } else {
      AskProvidersStep(h, s, e.peer, e.dst, e.seenFrom, e.req, e.root);
    }
  }

  lemma DeliveryEventKeepsInv(h: Hash, s: Sys, e: Event)
    requires Inv(h, s) && UploadsPlaced(s) && Enabled(h, s, e) && (e.Deliver? || e.Lose?)
    ensures Inv(h, Step(h, s, e))
  {
    if e.Lose? {
      LoseStep(h, s, e.i);
    } else if Intercepted(s.net[e.i].m, e.waiting) {
      InterceptStep(h, s, e.i);
    } else {
      HandleStep(h, s, e.i, e.clock, e.putFails, e.closest, e.seenFrom);
    }
  }

  lemma StepKeepsInv(h: Hash, s: Sys, e: Event)
    requires Inv(h, s) && UploadsPlaced(s) && Enabled(h, s, e)
    ensures Inv(h, Step(h, s, e))
  {
    if e.StartStore? || e.PutBlock? || e.RegisterMeta? {
      StoreEventKeepsInv(h, s, e);
    } else if e.Deliver? || e.Lose? {
      DeliveryEventKeepsInv(h, s, e);
    } else {
      SendEventKeepsInv(h, s, e);
    }
  }
}
