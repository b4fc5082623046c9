/** Placement of chunk replicas: up to replicaCount - 1 remote copies of every chunk, on the first peers in
    increasing distance from the chunk's key whose remote store call succeeds. */
module Replicas {
  import opened Ids
  import opened Routing
  import opened Chunks
  import opened Geometry
  import Files
  import opened IterativeLookup

  /** chunkKeyFromID: a chunk identifier hashed into the key space. */
  function ChunkKey(h: Hash, id: ChunkId): (key: Id)
    ensures key <= h(id)
  {
    h(id)[..ID_BYTES]
  }

  /** Peers other than this node, by identifier and by address. */
  predicate Eligible(c: Contact, selfId: Id, selfAddr: string) {
    c.id != selfId && c.address != selfAddr
  }

  /** The peers among the first n whose store call succeeds if it is made; works(i) is the outcome for contact i. */
  function Successes(closest: seq<Contact>, n: nat, selfId: Id, selfAddr: string, works: nat -> bool): seq<Contact>
    requires n <= |closest|
  {
    if n == 0 then []
    else
      var before := Successes(closest, n - 1, selfId, selfAddr, works);
      if Eligible(closest[n - 1], selfId, selfAddr) && works(n - 1) then before + [closest[n - 1]] else before
  }

  /** The first needed ones of them. */
  function Placed(closest: seq<Contact>, selfId: Id, selfAddr: string, works: nat -> bool, needed: nat): seq<Contact> {
    var all := Successes(closest, |closest|, selfId, selfAddr, works);
    all[..Min(needed, |all|)]
  }

  lemma {:induction false} SuccessesGrow(closest: seq<Contact>, m: nat, n: nat, selfId: Id, selfAddr: string, works: nat -> bool)
    requires m <= n <= |closest|
    ensures Successes(closest, m, selfId, selfAddr, works) <= Successes(closest, n, selfId, selfAddr, works)
  {
    if m < n {
      SuccessesGrow(closest, m, n - 1, selfId, selfAddr, works);
    }
  }

  /** Successes are eligible contacts that work. */
  lemma {:induction false} SuccessesAreEligible(closest: seq<Contact>, n: nat, selfId: Id, selfAddr: string,
                                                 works: nat -> bool, k: nat)
    returns (i: nat)
    requires n <= |closest| && k < |Successes(closest, n, selfId, selfAddr, works)|
    ensures i < n && Successes(closest, n, selfId, selfAddr, works)[k] == closest[i]
    ensures Eligible(closest[i], selfId, selfAddr) && works(i)
  {
    if k < |Successes(closest, n - 1, selfId, selfAddr, works)| {
      i := SuccessesAreEligible(closest, n - 1, selfId, selfAddr, works, k);
    } else {
      i := n - 1;
    }
  }

  /** They keep the order of distance. */
  lemma {:induction false} SuccessesInOrder(key: Id, closest: seq<Contact>, n: nat, selfId: Id, selfAddr: string, works: nat -> bool)
    requires n <= |closest| && Nearer(key, closest)
    ensures Nearer(key, Successes(closest, n, selfId, selfAddr, works))
  {
    if n > 0 {
      SuccessesInOrder(key, closest, n - 1, selfId, selfAddr, works);
      var before := Successes(closest, n - 1, selfId, selfAddr, works);
      forall k | 0 <= k < |before|
        ensures Distance(key, before[k].id) < Distance(key, closest[n - 1].id)
      {
        var i := SuccessesAreEligible(closest, n - 1, selfId, selfAddr, works, k);
      }
    }
  }

  /** Every eligible contact that works is among them. */
  lemma {:induction false} SuccessesComplete(closest: seq<Contact>, n: nat, selfId: Id, selfAddr: string, works: nat -> bool, i: nat)
    requires i < n <= |closest| && Eligible(closest[i], selfId, selfAddr) && works(i)
    ensures closest[i] in Successes(closest, n, selfId, selfAddr, works)
  {
    if i < n - 1 {
      SuccessesComplete(closest, n - 1, selfId, selfAddr, works, i);
    }
  }

  /** Peer i is another node and takes the chunk when it is asked. */
  predicate Takes(closest: seq<Contact>, i: nat, selfId: Id, selfAddr: string, works: nat -> bool) {
    i < |closest| && closest[i].id != selfId && closest[i].address != selfAddr && works(i)
  }

  function Takers(closest: seq<Contact>, n: nat, selfId: Id, selfAddr: string, works: nat -> bool): set<nat> {
    set i: nat | i < n && Takes(closest, i, selfId, selfAddr, works)
  }

  lemma TakersStep(closest: seq<Contact>, n: nat, selfId: Id, selfAddr: string, works: nat -> bool)
    requires 0 < n <= |closest|
    ensures Takers(closest, n, selfId, selfAddr, works)
            == Takers(closest, n - 1, selfId, selfAddr, works)
               + if Takes(closest, n - 1, selfId, selfAddr, works) then {n - 1} else {}
  {
  }

  lemma {:induction false} SuccessesCount(closest: seq<Contact>, n: nat, selfId: Id, selfAddr: string, works: nat -> bool)
    requires n <= |closest|
    ensures |Successes(closest, n, selfId, selfAddr, works)| == |Takers(closest, n, selfId, selfAddr, works)|
  {
    if n == 0 {
      assert Takers(closest, 0, selfId, selfAddr, works) == {};
    } else {
      SuccessesCount(closest, n - 1, selfId, selfAddr, works);
      TakersStep(closest, n, selfId, selfAddr, works);
    }
  }

  /** Every replica is on a peer that took the chunk, and as many took it as were needed or could. */
  ghost predicate OnTakers(closest: seq<Contact>, selfId: Id, selfAddr: string, works: nat -> bool, needed: nat,
                           replicas: seq<Contact>) {
    && |replicas| == Min(needed, |Takers(closest, |closest|, selfId, selfAddr, works)|)
    && forall k :: 0 <= k < |replicas| ==>
         exists i: nat :: Takes(closest, i, selfId, selfAddr, works) && closest[i] == replicas[k]
  }

  lemma PlacementWorks(closest: seq<Contact>, selfId: Id, selfAddr: string, works: nat -> bool, needed: nat)
    ensures OnTakers(closest, selfId, selfAddr, works, needed, Placed(closest, selfId, selfAddr, works, needed))
  {
    SuccessesCount(closest, |closest|, selfId, selfAddr, works);
    var placed := Placed(closest, selfId, selfAddr, works, needed);
    forall k | 0 <= k < |placed|
      ensures exists i: nat :: Takes(closest, i, selfId, selfAddr, works) && closest[i] == placed[k]
    {
      var i := SuccessesAreEligible(closest, |closest|, selfId, selfAddr, works, k);
      assert Takes(closest, i, selfId, selfAddr, works);
    }
  }

  /** At most needed replicas, in order of distance, on distinct peers that are never this node. */
  lemma PlacementIsSound(key: Id, closest: seq<Contact>, selfId: Id, selfAddr: string, works: nat -> bool, needed: nat)
    requires Nearer(key, closest)
    ensures var placed := Placed(closest, selfId, selfAddr, works, needed);
            && |placed| <= needed && Nearer(key, placed) && Distinct(IdsOf(placed))
            && (forall k :: 0 <= k < |placed| ==> placed[k].id != selfId && placed[k].address != selfAddr)
            && OnTakers(closest, selfId, selfAddr, works, needed, placed)
  {
    var placed := Placed(closest, selfId, selfAddr, works, needed);
    SuccessesInOrder(key, closest, |closest|, selfId, selfAddr, works);
    NearerIsDistinct(key, placed);
    PlacementWorks(closest, selfId, selfAddr, works, needed);
  }

  /** Whatever calls fail, a peer that works and holds no replica is farther from the key than all replicas,
      and then there are needed of them. */
  lemma PlacementIsNearest(key: Id, closest: seq<Contact>, selfId: Id, selfAddr: string, works: nat -> bool, needed: nat, i: nat)
    requires Nearer(key, closest) && i < |closest|
    requires Takes(closest, i, selfId, selfAddr, works)
    requires closest[i] !in Placed(closest, selfId, selfAddr, works, needed)
    ensures var placed := Placed(closest, selfId, selfAddr, works, needed);
            && |placed| == needed
            && forall k :: 0 <= k < |placed| ==> Distance(key, placed[k].id) < Distance(key, closest[i].id)
  {
    var all := Successes(closest, |closest|, selfId, selfAddr, works);
    var placed := Placed(closest, selfId, selfAddr, works, needed);
    SuccessesInOrder(key, closest, |closest|, selfId, selfAddr, works);
    SuccessesComplete(closest, |closest|, selfId, selfAddr, works, i);
    var m :| 0 <= m < |all| && all[m] == closest[i];
    assert forall k :: 0 <= k < |placed| ==> all[k] == placed[k] && placed[k] != closest[i];
  }

  /** The loop over the peers of one chunk. */
  method ReplicateChunk(closest: seq<Contact>, selfId: Id, selfAddr: string, works: nat -> bool, needed: nat)
    returns (replicas: seq<Contact>)
    requires needed > 0
    ensures replicas == Placed(closest, selfId, selfAddr, works, needed)
    ensures OnTakers(closest, selfId, selfAddr, works, needed, replicas)
  {
    PlacementWorks(closest, selfId, selfAddr, works, needed);
    replicas := [];
    for i := 0 to |closest|
      invariant |replicas| < needed
      invariant replicas == Successes(closest, i, selfId, selfAddr, works)
    {
      var own := Equals(closest[i].id, selfId);
      if own || closest[i].address == selfAddr {
        continue;
      }
      if !works(i) {
        continue;
      }
      replicas := replicas + [closest[i]];
      if |replicas| >= needed {
        SuccessesGrow(closest, i + 1, |closest|, selfId, selfAddr, works);
        break;
      }
    }
  }

  /** What happened to one chunk: its key's lookup ended in closest, and its replicas are the placement on closest. */
  ghost predicate ChunkPlaced(h: Hash, id: ChunkId, views: seq<seq<Contact>>, closest: seq<Contact>, replicas: seq<Contact>,
                              selfId: Id, selfAddr: string, works: nat -> bool, needed: nat) {
    && (exists shortlists, rounds, calls :: IsLookup(ChunkKey(h, id), views, shortlists, rounds, calls, closest))
    && replicas == Placed(closest, selfId, selfAddr, works, needed)
    && OnTakers(closest, selfId, selfAddr, works, needed, replicas)
  }

  /** What happened to chunk j: placed, or skipped because the local store lacks it. */
  ghost predicate ChunkHandled(h: Hash, id: ChunkId, store: Store, views: seq<seq<Contact>>, closest: seq<Contact>,
                               replicas: seq<Contact>, selfId: Id, selfAddr: string, works: nat -> bool, needed: nat) {
    if id in store then ChunkPlaced(h, id, views, closest, replicas, selfId, selfAddr, works, needed) else replicas == []
  }

  /** ReplicateFileChunks. views[j] are the tables that the lookup for chunk j reads, works(j)(i) is the outcome of
      the call to the i-th closest peer for chunk j; a chunk that the local store lacks is skipped. */
  method ReplicateFileChunks(h: Hash, file: Option<Files.FileMeta>, store: Option<Store>, replicaCount: int,
                             selfId: Id, selfAddr: string, views: seq<seq<seq<Contact>>>, works: nat -> nat -> bool)
    returns (r: Result<seq<seq<Contact>>>, ghost closest: seq<seq<Contact>>)
    requires file.Some? ==> |views| == |file.value.chunks|
    requires forall j :: 0 <= j < |views| ==> |views[j]| == MAX_ROUNDS + 1
    requires forall j, v :: 0 <= j < |views| && 0 <= v < |views[j]| ==> Distinct(IdsOf(views[j][v]))
    ensures r.Err? <==> file.None? || store.None?
    ensures r.Ok? && replicaCount <= 1 ==> r.value == []
    ensures r.Ok? && replicaCount > 1 ==> |r.value| == |closest| == |file.value.chunks|
    ensures r.Ok? && replicaCount > 1 ==> forall j: nat :: j < |r.value| ==>
              ChunkHandled(h, file.value.chunks[j].id, store.value, views[j], closest[j], r.value[j],
                           selfId, selfAddr, works(j), replicaCount - 1)
  {
    closest := [];
    if file.None? {
      return Err("meta is nil"), closest;
    }
    if store.None? {
      return Err("no local ChunkStore configured"), closest;
    }
    if replicaCount <= 1 {
      return Ok([]), closest;
    }
    var placed: seq<seq<Contact>> := [];
    var chunks := file.value.chunks;
    for j := 0 to |chunks|
      invariant |placed| == |closest| == j
      invariant forall c: nat :: c < j ==>
                  ChunkHandled(h, chunks[c].id, store.value, views[c], closest[c], placed[c],
                               selfId, selfAddr, works(c), replicaCount - 1)
    {
      var replicas;
      ghost var found;
      replicas, found := HandleChunk(h, chunks[j].id, store.value, views[j], selfId, selfAddr, works(j), replicaCount - 1);
      placed, closest := placed + [replicas], closest + [found];
    }
    return Ok(placed), closest;
  }

  /** One chunk: skipped if the local store lacks it. */
  method HandleChunk(h: Hash, id: ChunkId, store: Store, views: seq<seq<Contact>>, selfId: Id, selfAddr: string,
                     works: nat -> bool, needed: nat)
    returns (replicas: seq<Contact>, ghost found: seq<Contact>)
    requires needed > 0 && |views| == MAX_ROUNDS + 1 && forall v :: 0 <= v < |views| ==> Distinct(IdsOf(views[v]))
    ensures ChunkHandled(h, id, store, views, found, replicas, selfId, selfAddr, works, needed)
  {
    if id !in store {
      return [], [];
    }
    replicas, found := PlaceChunk(h, id, views, selfId, selfAddr, works, needed);
  }

  /** Lookup and placement for one chunk that is in the local store. */
  method PlaceChunk(h: Hash, id: ChunkId, views: seq<seq<Contact>>, selfId: Id, selfAddr: string, works: nat -> bool, needed: nat)
    returns (replicas: seq<Contact>, ghost found: seq<Contact>)
    requires needed > 0 && |views| == MAX_ROUNDS + 1 && forall v :: 0 <= v < |views| ==> Distinct(IdsOf(views[v]))
    ensures ChunkPlaced(h, id, views, found, replicas, selfId, selfAddr, works, needed)
  {
    var closest, rounds;
    ghost var shortlists, calls;
    closest, rounds, shortlists, calls := Lookup(ChunkKey(h, id), views);
    found := closest;
    assert IsLookup(ChunkKey(h, id), views, shortlists, rounds, calls, closest);
    if |closest| == 0 {
      replicas := [];
      PlacementWorks(closest, selfId, selfAddr, works, needed);
    } else {
      replicas := ReplicateChunk(closest, selfId, selfAddr, works, needed);
    }
  }
}
