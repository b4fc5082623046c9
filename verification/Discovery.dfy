/** How nodes come to know each other: what one message does to the routing table, said by the
    recency list of the identifiers that the message mentions. */
module Discovery {
  import opened Ids
  import opened Routing
  import opened Recency
  import opened Chunks
  import opened Messages
  import opened Node

  /** The messages from which a node learns contacts. */
  predicate Discovers(m: Message) {
    m.typ == Ping || m.typ == Pong || m.typ == Nodes || (m.typ == FindNode && m.target.Some?)
  }

  /** The contacts listed for the receiver: only NODES messages list any. */
  function Listed(m: Message): seq<Contact> {
    if m.typ == Nodes then m.nodes else []
  }

  function Backwards(ids: seq<Id>): seq<Id> {
    if ids == [] then [] else [ids[|ids| - 1]] + Backwards(ids[..|ids| - 1])
  }

  /** The identifiers that belong into bucket i of this owner's table. */
  function InBucket(owner: Id, i: nat, ids: seq<Id>): seq<Id> {
    if ids == [] then []
    else (if ids[0] != owner && BucketIndex(owner, ids[0]) == i then [ids[0]] else []) + InBucket(owner, i, ids[1..])
  }

  /** All identifiers that a message mentions, the newest first: its sender, then the listed ones from last to first. */
  function Mentioned(m: Message): seq<Id> {
    [m.from] + Backwards(IdsOf(Listed(m)))
  }

  // ---------- identifiers ----------

  lemma {:induction false} DistinctIsFirst(ids: seq<Id>, seen: set<Id>, k: nat)
    requires Distinct(ids) && |ids| <= k && forall id :: id in ids ==> id !in seen
    ensures FirstDistinct(ids, seen, k) == ids
  {
    if ids != [] {
      DistinctIsFirst(ids[1..], seen + {ids[0]}, k - 1);
    }
  }

  lemma InBucketFirst(owner: Id, i: nat, id: Id, rest: seq<Id>, was: seq<Id>)
    ensures InBucket(owner, i, [id] + rest) + was
            == if id != owner && BucketIndex(owner, id) == i then [id] + (InBucket(owner, i, rest) + was)
               else InBucket(owner, i, rest) + was
  {
    assert ([id] + rest)[1..] == rest;
  }

  /** One mention more. */
  lemma LearnBucket(n: NodeState, id: Id, address: string, now: int, i: nat, newest: seq<Id>)
    requires WellFormed(n.id, n.table) && i < ID_BITS && IdsOf(n.table[i]) == FirstDistinct(newest, {}, K)
    ensures IdsOf(Learn(n, id, address, now).table[i])
            == FirstDistinct(if id != n.id && BucketIndex(n.id, id) == i then [id] + newest else newest, {}, K)
  {
    assert WellFormedBucket(n.id, i, n.table[i]);
    RecencyStep(newest, n.table[i], Contact(id, address, 0), now);
  }

  lemma {:induction false} LearnAllBucket(n: NodeState, nodes: seq<Contact>, clock: Clock, i: nat)
    requires WellFormed(n.id, n.table) && i < ID_BITS
    ensures IdsOf(LearnAll(n, nodes, clock).table[i])
            == FirstDistinct(InBucket(n.id, i, Backwards(IdsOf(nodes))) + IdsOf(n.table[i]), {}, K)
  {
    var was := IdsOf(n.table[i]);
    if nodes == [] {
      assert WellFormedBucket(n.id, i, n.table[i]);
      DistinctIsFirst(was, {}, K);
      assert InBucket(n.id, i, Backwards(IdsOf(nodes))) + was == was;
    } else {
      var last, front := nodes[|nodes| - 1], nodes[..|nodes| - 1];
      var before := LearnAll(n, front, clock);
      LearnAllKeepsWellFormed(n, front, clock);
      LearnAllBucket(n, front, clock, i);
      LearnBucket(before, last.id, last.address, clock(|nodes| - 1), i,
                  InBucket(n.id, i, Backwards(IdsOf(front))) + was);
      assert IdsOf(nodes)[..|nodes| - 1] == IdsOf(front);
      InBucketFirst(n.id, i, last.id, Backwards(IdsOf(front)), was);
    }
  }

  /** Discovery: after a PING, PONG, FIND_NODE or NODES message every bucket holds the first K distinct identifiers of
      those the message mentions, sender first and then the listed contacts from last to first, followed by the
      identifiers that were there. */
  lemma MentionedAreLearned(h: Hash, n: NodeState, a: Arrival, i: nat)
    requires WellFormed(n.id, n.table) && Discovers(a.m) && i < ID_BITS
    ensures IdsOf(Handle(h, n, a).table[i])
            == FirstDistinct(InBucket(n.id, i, Mentioned(a.m)) + IdsOf(n.table[i]), {}, K)
  {
    var listed := Listed(a.m);
    var before := LearnAll(n, listed, a.clock);
    var newest := InBucket(n.id, i, Backwards(IdsOf(listed))) + IdsOf(n.table[i]);
    LearnAllKeepsWellFormed(n, listed, a.clock);
    LearnAllBucket(n, listed, a.clock, i);
    LearnBucket(before, a.m.from, SenderAddr(a.from, a.m), a.clock(|listed|), i, newest);
    InBucketFirst(n.id, i, a.m.from, Backwards(IdsOf(listed)), IdsOf(n.table[i]));
  }

  /** From other messages nothing is learned. */
  lemma OthersTeachNothing(h: Hash, n: NodeState, a: Arrival)
    requires !Discovers(a.m)
    ensures Handle(h, n, a).table == n.table
  {
  }

  // ---------- addresses ----------

  /** A contact with this identifier and address is in the list. */
  predicate Gives(list: seq<Contact>, c: Contact) {
    exists k :: 0 <= k < |list| && list[k].id == c.id && list[k].address == c.address
  }

  lemma LearnGives(n: NodeState, id: Id, address: string, now: int, i: nat, c: Contact)
    requires i < ID_BITS && c in Learn(n, id, address, now).table[i]
    ensures Gives(n.table[i], c) || (c.id == id && c.address == address)
  {
    if id != n.id && BucketIndex(n.id, id) == i {
      var s, added := n.table[i], Contact(id, address, 0);
      var r := Refresh(s, added, now);
      RefreshShape(s, added, now);
      var j :| 0 <= j < |r| && r[j] == c;
      if j > 0 {
        assert s[if j <= Find(s, id) then j - 1 else j] == c;
      } else if Find(s, id) < |s| {
        assert s[Find(s, id)].id == c.id && s[Find(s, id)].address == c.address;
      }
    }
  }

  lemma GivesOneMore(list: seq<Contact>, last: Contact, c: Contact)
    ensures Gives(list + [last], c) <==> Gives(list, c) || (last.id == c.id && last.address == c.address)
  {
    assert (list + [last])[|list|] == last;
    assert forall k :: 0 <= k < |list| ==> (list + [last])[k] == list[k];
  }

  lemma {:induction false} LearnAllGives(n: NodeState, nodes: seq<Contact>, clock: Clock, i: nat, c: Contact)
    requires i < ID_BITS && c in LearnAll(n, nodes, clock).table[i]
    ensures Gives(n.table[i], c) || Gives(nodes, c)
  {
    if nodes == [] {
      var k :| 0 <= k < |n.table[i]| && n.table[i][k] == c;
    } else {
      var last, front := nodes[|nodes| - 1], nodes[..|nodes| - 1];
      var before := LearnAll(n, front, clock);
      LearnAllTable(n, front, clock);
      LearnGives(before, last.id, last.address, clock(|nodes| - 1), i, c);
      GivesOneMore(front, last, c);
      assert nodes == front + [last];
      if Gives(before.table[i], c) {
        var k :| 0 <= k < |before.table[i]| && before.table[i][k].id == c.id && before.table[i][k].address == c.address;
        LearnAllGives(n, front, clock, i, before.table[i][k]);
        SameGiven(n.table[i], front, before.table[i][k], c);
      }
    }
  }

  lemma SameGiven(a: seq<Contact>, b: seq<Contact>, c: Contact, d: Contact)
    requires c.id == d.id && c.address == d.address
    ensures (Gives(a, c) <==> Gives(a, d)) && (Gives(b, c) <==> Gives(b, d))
  {
  }

  /** Every contact afterwards has an address that its bucket had for it, that the message lists for it, or, for the
      sender, the address that the message gives or else the one it was received from. */
  lemma AddressesAreGiven(h: Hash, n: NodeState, a: Arrival, i: nat, c: Contact)
    requires Discovers(a.m) && i < ID_BITS && c in Handle(h, n, a).table[i]
    ensures || Gives(n.table[i], c) || Gives(Listed(a.m), c)
            || (c.id == a.m.from && c.address == if a.m.nodeAddr == "" then a.from else a.m.nodeAddr)
  {
    var before := LearnAll(n, Listed(a.m), a.clock);
    LearnAllTable(n, Listed(a.m), a.clock);
    LearnGives(before, a.m.from, SenderAddr(a.from, a.m), a.clock(|Listed(a.m)|), i, c);
    if Gives(before.table[i], c) {
      var k :| 0 <= k < |before.table[i]| && before.table[i][k].id == c.id && before.table[i][k].address == c.address;
      LearnAllGives(n, Listed(a.m), a.clock, i, before.table[i][k]);
      SameGiven(n.table[i], Listed(a.m), before.table[i][k], c);
    }
  }

  lemma LearnInFront(n: NodeState, id: Id, address: string, now: int)
    requires id != n.id
    ensures var b := Learn(n, id, address, now).table[BucketIndex(n.id, id)];
            b != [] && b[0].id == id && b[0].lastSeen == now
  {
    RefreshShape(n.table[BucketIndex(n.id, id)], Contact(id, address, 0), now);
  }

  lemma HandleIsLearn(h: Hash, n: NodeState, a: Arrival)
    requires Discovers(a.m)
    ensures var before := LearnAll(n, Listed(a.m), a.clock);
            && before.id == n.id
            && Handle(h, n, a) == Learn(before, a.m.from, SenderAddr(a.from, a.m), a.clock(|Listed(a.m)|))
  {
    LearnAllTable(n, Listed(a.m), a.clock);
  }

  /** The sender is then at the front of its bucket with the last clock reading, and if neither its bucket nor the
      message named it otherwise, under its own address. */
  lemma SenderIsLearned(h: Hash, n: NodeState, a: Arrival)
    requires Discovers(a.m) && a.m.from != n.id
    ensures var i := BucketIndex(n.id, a.m.from);
            var b := Handle(h, n, a).table[i];
            && b != [] && b[0].id == a.m.from && b[0].lastSeen == a.clock(|Listed(a.m)|)
            && (a.m.from !in IdsOf(n.table[i]) && a.m.from !in IdsOf(Listed(a.m)) ==>
                  b[0].address == if a.m.nodeAddr == "" then a.from else a.m.nodeAddr)
  {
    var i, before := BucketIndex(n.id, a.m.from), LearnAll(n, Listed(a.m), a.clock);
    HandleIsLearn(h, n, a);
    LearnInFront(before, a.m.from, SenderAddr(a.from, a.m), a.clock(|Listed(a.m)|));
    var front := Handle(h, n, a).table[i][0];
    AddressesAreGiven(h, n, a, i, front);
    if Gives(n.table[i], front) {
      GivenIsIn(n.table[i], front);
    }
    if Gives(Listed(a.m), front) {
      GivenIsIn(Listed(a.m), front);
    }
  }

  lemma GivenIsIn(list: seq<Contact>, c: Contact)
    requires Gives(list, c)
    ensures c.id in IdsOf(list)
  {
    var k :| 0 <= k < |list| && list[k].id == c.id && list[k].address == c.address;
    assert IdsOf(list)[k] == c.id;
  }
}
